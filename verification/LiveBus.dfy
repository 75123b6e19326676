/** The bus that carries live events from the log to connected clients. Every method is one step that
    runs without interruption; clients come and go, and reads of the log stay in flight, between any
    two of them. */
module LiveBus {
  import opened Records
  import opened Integers
  import opened LiveEvents
  import opened Ordering

  const MAX_COHORTS_PER_POLL := 4
  const PAGE := 250

  type ClientId = nat

  /** A read of the log for the clients that stood at `cursor`, with its answer once it is there. */
  datatype Request = Request(cursor: int, members: set<ClientId>, answer: Option<seq<Event>>)

  /** What a client's stream says when it is offered an event. */
  datatype Signal = Room | Full | Gone

  /** The newest id of the first `count` events and of what was seen before. */
  ghost predicate Seen(before: Option<int>, after: Option<int>, events: seq<Event>, count: nat)
    requires count <= |events|
  {
    if count == 0 then after == before
    else after == Some(Max(if before.Some? then before.value else 0, Newest(events, count)))
  }

  function Newer(latest: Option<int>, id: int): Option<int> {
    Some(Max(if latest.Some? then latest.value else 0, id))
  }

  lemma OneMoreSeen(before: Option<int>, after: Option<int>, events: seq<Event>, count: nat)
    requires count < |events| && Seen(before, after, events, count)
    ensures Seen(before, Newer(after, events[count].id), events, count + 1)
  {
  }

  function Newest(events: seq<Event>, count: nat): (id: int)
    requires 0 < count <= |events|
    ensures forall i :: 0 <= i < count ==> events[i].id <= id
    ensures exists i :: 0 <= i < count && events[i].id == id
  {
    if count == 1 then events[0].id else Max(Newest(events, count - 1), events[count - 1].id)
  }

  // ---------------------------------------------------------------- cohorts

  predicate AtCursor(clients: map<ClientId, int>, c: ClientId, cursor: int) {
    c in clients && clients[c] == cursor
  }

  function Cohort(clients: map<ClientId, int>, ready: set<ClientId>, cursor: int): set<ClientId> {
    set c | c in ready && AtCursor(clients, c, cursor)
  }

  /** No ready client is further along. */
  predicate Leads(clients: map<ClientId, int>, ready: set<ClientId>, c: ClientId) {
    c in clients && forall d :: d in ready && d in clients ==> clients[d] <= clients[c]
  }

  /** The cursors of the ready clients, the newest first. */
  method CohortCursors(clients: map<ClientId, int>, ready: set<ClientId>) returns (cursors: seq<int>)
    requires ready <= clients.Keys
    ensures Descending(cursors)
    ensures forall x :: x in cursors <==> exists c :: c in ready && AtCursor(clients, c, x)
  {
    cursors := [];
    var rest := ready;
    while rest != {}
      invariant rest <= ready && Descending(cursors)
      invariant forall x :: x in cursors <==> exists c :: c in ready && c !in rest && AtCursor(clients, c, x)
      decreases |rest|
    {
      var c :| c in rest;
      rest := rest - {c};
      InsertDescendingKeeps(cursors, clients[c]);
      ghost var before := cursors;
      cursors := InsertDescending(cursors, clients[c]);
      forall x
        ensures x in cursors <==> exists d :: d in ready && d !in rest && AtCursor(clients, d, x)
      {
        assert AtCursor(clients, c, clients[c]);
        if x in before {
          var d :| d in ready && d !in rest + {c} && AtCursor(clients, d, x);
        }
      }
    }
  }

  /** Where the ready clients stand. */
  ghost function Cohorts(clients: map<ClientId, int>, ready: set<ClientId>): set<int> {
    set c | c in ready && c in clients :: clients[c]
  }

  /** The next poll goes on three cohorts further, around those behind the newest. */
  ghost function NextOffset(clients: map<ClientId, int>, ready: set<ClientId>, offset: nat): nat {
    var n := |Cohorts(clients, ready)|;
    if n <= 1 then offset else Turn(offset, 3, n - 1)
  }

  lemma {:induction false} DistinctCursors(cursors: seq<int>)
    requires Descending(cursors)
    ensures |(set x | x in cursors)| == |cursors|
  {
    if cursors != [] {
      var front, last := cursors[..|cursors| - 1], cursors[|cursors| - 1];
      DistinctCursors(front);
      assert last !in front;
      assert (set x | x in cursors) == (set x | x in front) + {last};
    }
  }

  lemma CursorsAreCohorts(clients: map<ClientId, int>, ready: set<ClientId>, cursors: seq<int>)
    requires Descending(cursors) && forall x :: x in cursors <==> exists c :: c in ready && AtCursor(clients, c, x)
    ensures |Cohorts(clients, ready)| == |cursors|
  {
    DistinctCursors(cursors);
    forall x
      ensures x in cursors <==> x in Cohorts(clients, ready)
    {
      if x in cursors {
        var c :| c in ready && AtCursor(clients, c, x);
      }
      if x in Cohorts(clients, ready) {
        var c :| c in ready && c in clients && clients[c] == x;
        assert AtCursor(clients, c, x);
      }
    }
    assert (set x | x in cursors) == Cohorts(clients, ready);
  }

  /** The newest cohort always, and up to three others in turn. */
  method SelectCohorts(cursors: seq<int>, offset: nat) returns (selected: seq<int>, nextOffset: nat)
    requires Descending(cursors)
    ensures |selected| == Min(|cursors|, 4)
    ensures forall x :: x in selected ==> x in cursors
    ensures cursors != [] ==> selected[0] == cursors[0]
    ensures |cursors| <= 4 ==> forall x :: x in cursors ==> x in selected
    ensures forall k :: 1 <= k < |selected| ==> selected[k] == cursors[1 + Turn(offset, k - 1, |cursors| - 1)]
    ensures nextOffset == if |cursors| <= 1 then offset else Turn(offset, 3, |cursors| - 1)
    ensures forall i, j :: 0 <= i < j < |selected| ==> selected[i] != selected[j]
  {
    if cursors == [] {
      return [], offset;
    }
    var remaining := cursors[1..];
    var others := TakeTurns(remaining, offset);
    selected := [cursors[0]] + others;
    nextOffset := if remaining == [] then offset else (offset + MAX_COHORTS_PER_POLL - 1) % |remaining|;
    NewestAndOthers(cursors, offset, others);
  }

  lemma NewestAndOthers(cursors: seq<int>, offset: nat, others: seq<int>)
    requires cursors != [] && Descending(cursors) && |others| == Min(|cursors| - 1, 3)
    requires forall k :: 0 <= k < |others| ==> others[k] == cursors[1..][Turn(offset, k, |cursors| - 1)]
    requires forall i, j :: 0 <= i < j < |others| ==> others[i] != others[j]
    requires |cursors| <= 4 ==> forall x :: x in cursors[1..] ==> x in others
    ensures var selected := [cursors[0]] + others;
            && (forall x :: x in selected ==> x in cursors)
            && (|cursors| <= 4 ==> forall x :: x in cursors ==> x in selected)
            && (forall k :: 1 <= k < |selected| ==> selected[k] == cursors[1 + Turn(offset, k - 1, |cursors| - 1)])
            && (forall i, j :: 0 <= i < j < |selected| ==> selected[i] != selected[j])
  {
    assert cursors == [cursors[0]] + cursors[1..];
    assert forall k :: 1 <= k < |others| + 1 ==> ([cursors[0]] + others)[k] == others[k - 1];
  }

  /** Up to three of the cohorts behind the newest, from the offset on and around. */
  method TakeTurns(remaining: seq<int>, offset: nat) returns (taken: seq<int>)
    requires Descending(remaining)
    ensures |taken| == Min(|remaining|, 3)
    ensures forall k :: 0 <= k < |taken| ==> taken[k] == remaining[Turn(offset, k, |remaining|)]
    ensures forall x :: x in taken ==> x in remaining
    ensures forall i, j :: 0 <= i < j < |taken| ==> taken[i] != taken[j]
    ensures |remaining| <= 3 ==> forall x :: x in remaining ==> x in taken
  {
    taken := [];
    var count := Min(MAX_COHORTS_PER_POLL - 1, |remaining|);
    for index := 0 to count
      invariant |taken| == index
      invariant forall k :: 0 <= k < index ==> taken[k] == remaining[Turn(offset, k, |remaining|)]
    {
      taken := taken + [remaining[(offset + index) % |remaining|]];
    }
    Rotation(remaining, offset, count, taken);
  }

  function Turn(offset: nat, k: nat, n: nat): (p: nat)
    requires n > 0
    ensures p < n
  {
    (offset + k) % n
  }

  /** Taking as many as there are, or fewer, in turn takes none twice, and all if it is as many. */
  lemma Rotation(remaining: seq<int>, offset: nat, count: nat, taken: seq<int>)
    requires Descending(remaining) && count <= |remaining| && |taken| == count
    requires forall k :: 0 <= k < count ==> taken[k] == remaining[Turn(offset, k, |remaining|)]
    ensures forall x :: x in taken ==> x in remaining
    ensures forall i, j :: 0 <= i < j < count ==> taken[i] != taken[j]
    ensures count == |remaining| ==> forall x :: x in remaining ==> x in taken
  {
    if remaining != [] {
      var n := |remaining|;
      forall k | 0 <= k < n
        ensures Turn(offset, k, n) == Wrapped(offset % n + k, n)
      {
        TurnWraps(offset, k, n);
      }
      if count == n {
        forall x | x in remaining
          ensures x in taken
        {
          var p :| 0 <= p < n && remaining[p] == x;
          var k := Wrapped(p - offset % n + n, n);
          assert Turn(offset, k, n) == p && taken[k] == x;
        }
      }
    }
  }

  /** The offset after `polls` polls with the same `n` cohorts behind the newest. */
  function OffsetAfter(offset: nat, n: nat, polls: nat): nat
    requires n > 0
  {
    if polls == 0 then offset else Turn(OffsetAfter(offset, n, polls - 1), 3, n)
  }

  lemma TurnOfTurn(offset: nat, j: nat, k: nat, n: nat)
    requires n > 0
    ensures Turn(Turn(offset, j, n), k, n) == Turn(offset, j + k, n)
  {
    RemainderAdds(offset + j, k, n);
  }

  lemma {:induction false} TurnsAddUp(offset: nat, n: nat, polls: nat, k: nat)
    requires n > 0
    ensures Turn(OffsetAfter(offset, n, polls), k, n) == Turn(offset, 3 * polls + k, n)
  {
    if polls > 0 {
      TurnsAddUp(offset, n, polls - 1, 3 + k);
      TurnOfTurn(OffsetAfter(offset, n, polls - 1), 3, k, n);
    }
  }

  lemma RemainderAdds(x: nat, y: nat, n: nat)
    requires n > 0
    ensures (x % n + y) % n == (x + y) % n
  {
    var q, r := (x % n + y) / n, (x % n + y) % n;
    assert x == n * (x / n) + x % n;
    assert n * (x / n + q) == n * (x / n) + n * q;
    DivisionIs(x + y, n, x / n + q, r);
  }

  /** While the cohorts stay the same, each of those behind the newest is asked for within as many polls
      as it takes to go through them three at a time. */
  lemma EveryCohortHasItsTurn(offset: nat, n: nat, p: nat) returns (polls: nat, k: nat)
    requires p < n
    ensures polls <= (n - 1) / 3 && k < Min(n, 3) && Turn(OffsetAfter(offset, n, polls), k, n) == p
  {
    var d := if p >= offset % n then p - offset % n else p - offset % n + n;
    polls, k := d / 3, d % 3;
    TurnsAddUp(offset, n, polls, k);
    RemainderAdds(offset, d, n);
    DivisionIs(offset % n + d, n, if p >= offset % n then 0 else 1, p);
  }

  function Wrapped(x: nat, n: nat): nat {
    if x < n then x else x - n
  }

  lemma TurnWraps(offset: nat, k: nat, n: nat)
    requires k < n
    ensures Turn(offset, k, n) == Wrapped(offset % n + k, n)
  {
    var q := offset / n;
    var wraps := offset % n + k >= n;
    var m := if wraps then q + 1 else q;
    assert n * (q + 1) == n * q + n;
    DivisionIs(offset + k, n, m, Wrapped(offset % n + k, n));
  }

  // ---------------------------------------------------------------- the bus

  predicate Counted(starting: set<ClientId>, clients: map<ClientId, int>, admitted: nat, maxClients: nat) {
    starting !! clients.Keys && admitted == |starting| + |clients| <= maxClients
  }

  ghost predicate Known(starting: set<ClientId>, clients: map<ClientId, int>, nextClient: nat, initial: map<ClientId, int>) {
    && (forall c :: c in starting ==> c < nextClient && c !in initial)
    && (forall c :: c in initial ==> c < nextClient)
    && (forall c :: c in clients ==> c in initial)
  }

  /** A client's cursor is the last id it was sent, or what it started from. */
  ghost predicate AtTheirEnds(clients: map<ClientId, int>, initial: map<ClientId, int>, delivered: map<ClientId, seq<Delivery>>) {
    forall c :: c in clients ==> c in initial && c in delivered && clients[c] == CursorOf(initial[c], delivered[c])
  }

  /** Nobody, connected or gone, was left with a silent gap. */
  ghost predicate AllTold(appended: seq<Event>, lastId: int, initial: map<ClientId, int>, delivered: map<ClientId, seq<Delivery>>) {
    && initial.Keys == delivered.Keys
    && forall c {:trigger NoSilentGap(appended, lastId, initial[c], delivered[c])} :: c in initial ==>
         NoSilentGap(appended, lastId, initial[c], delivered[c])
  }

  ghost predicate RequestsOk(appended: seq<Event>, lastId: int, requests: map<nat, Request>, nextRequest: nat,
                             initial: map<ClientId, int>, clients: map<ClientId, int>)
  {
    && (forall r :: r in requests ==> r < nextRequest)
    && (forall r {:trigger RequestOk(appended, lastId, requests[r], initial, clients)} :: r in requests ==>
          RequestOk(appended, lastId, requests[r], initial, clients))
  }

  /** What an answer says of the events that had been appended by the time it was given. */
  ghost predicate AnswersOk(appended: seq<Event>, requests: map<nat, Request>, asOf: map<nat, seq<Event>>) {
    forall r {:trigger AnswerOk(appended, requests[r], asOf, r)} :: r in requests ==> AnswerOk(appended, requests[r], asOf, r)
  }

  ghost predicate AnswerOk(appended: seq<Event>, request: Request, asOf: map<nat, seq<Event>>, r: nat) {
    request.answer.Some? ==>
      && r in asOf && asOf[r] <= appended
      && (|Waiting(asOf[r], request.cursor)| <= PAGE ==> ReachesAll(asOf[r], request.cursor, request.answer.value))
  }

  ghost predicate RequestOk(appended: seq<Event>, lastId: int, request: Request, initial: map<ClientId, int>, clients: map<ClientId, int>) {
    && (request.answer.Some? ==> Window(appended, lastId, request.cursor, request.answer.value))
    && (forall c :: c in request.members ==> c in initial)
    && (forall c :: c in request.members && c in clients ==> request.cursor <= clients[c])
  }

  class LiveBus {
    const maxClients: nat
    // the durable log, which every writer and the pruner share
    var log: EventLog
    ghost var appended: seq<Event>
    // streams admitted but not connected yet, and the cursors of the connected ones
    var starting: set<ClientId>
    var clients: map<ClientId, int>
    var admittedClients: nat
    var nextClient: ClientId
    var latestCursor: Option<int>
    var cohortOffset: nat
    var polling: bool
    var closed: bool
    // reads in flight
    var requests: map<nat, Request>
    var nextRequest: nat
    // what every client, gone or not, started from and was sent
    ghost var initial: map<ClientId, int>
    ghost var delivered: map<ClientId, seq<Delivery>>
    // what had been appended when a read was answered
    ghost var asOf: map<nat, seq<Event>>

    ghost predicate Valid()
      reads this
    {
      && Keeps(log, appended)
      && Counted(starting, clients, admittedClients, maxClients)
      && Known(starting, clients, nextClient, initial)
      && AtTheirEnds(clients, initial, delivered)
      && AllTold(appended, log.lastId, initial, delivered)
      && RequestsOk(appended, log.lastId, requests, nextRequest, initial, clients)
      && AnswersOk(appended, requests, asOf)
    }

    constructor (maxClients: nat)
      ensures Valid() && this.maxClients == maxClients && clients == map[] && log == EMPTY_LOG && !closed
    {
      this.maxClients := maxClients;
      log, appended := EMPTY_LOG, [];
      starting, clients, admittedClients, nextClient := {}, map[], 0, 0;
      latestCursor, cohortOffset, polling, closed := None, 0, false, false;
      requests, nextRequest := map[], 0;
      initial, delivered, asOf := map[], map[], map[];
    }

    // -------------------------------------------------------------- writers of the log

    method AppendEvent(id: int, payload: Json)
      requires Valid() && id > log.lastId
      modifies this`log, this`appended
      ensures Valid() && appended == old(appended) + [Event(id, false, payload)]
      ensures log.events == old(log.events) + [Event(id, false, payload)]
      ensures log.prunedThrough == old(log.prunedThrough) && log.lastId == id
    {
      AppendKeeps(log, appended, id, payload);
      ToldStaysAfterAppend(appended, log.lastId, initial, delivered, Event(id, false, payload));
      RequestsStayAfterAppend(appended, log.lastId, requests, nextRequest, initial, clients, Event(id, false, payload));
      AnswersStayAfterAppend(appended, requests, asOf, Event(id, false, payload));
      log, appended := Append(log, id, payload), appended + [Event(id, false, payload)];
    }

    /** `through` is the newest row that has passed its retention, or 0. */
    method PruneEvents(through: int)
      requires Valid() && through <= log.lastId
      modifies this`log
      ensures Valid() && log.prunedThrough == Max(old(log.prunedThrough), through) && log.lastId == old(log.lastId)
      ensures forall e :: e in log.events <==> e in old(log.events) && e.id > through
    {
      PruneKeeps(log, appended, through);
      forall e
        ensures e in After(log.events, through) <==> e in log.events && e.id > through
      {
        AfterHolds(log.events, through, e);
      }
      log := Prune(log, through);
    }

    // -------------------------------------------------------------- clients

    method Stream() returns (client: Option<ClientId>)
      requires Valid()
      modifies this`starting, this`admittedClients, this`nextClient
      ensures Valid()
      ensures client.None? <==> closed || old(admittedClients) >= maxClients
      ensures starting == if client.Some? then old(starting) + {client.value} else old(starting)
      ensures client.Some? ==> client.value == old(nextClient) && client.value !in old(starting)
    {
      if closed || admittedClients >= maxClients {
        return None;
      }
      client := Some(nextClient);
      admittedClients := admittedClients + 1;
      starting := starting + {nextClient};
      nextClient := nextClient + 1;
    }

    /** A client without a last event id starts from the newest id the bus or the log knows of. */
    method InitialCursor() returns (cursor: int)
      requires Valid()
      modifies this`latestCursor
      ensures Valid() && latestCursor == Some(cursor)
      ensures cursor == if old(latestCursor).Some? then old(latestCursor).value
                        else if log.events == [] then 0 else log.events[|log.events| - 1].id
    {
      if latestCursor.None? {
        latestCursor := Some(if log.events == [] then 0 else log.events[|log.events| - 1].id);
      }
      cursor := latestCursor.value;
    }

    /** The stream's cursor is known; it connects, unless it was released or the bus closed meanwhile. */
    method Start(client: ClientId, cursor: int)
      requires Valid()
      modifies this`starting, this`clients, this`admittedClients, this`initial, this`delivered
      ensures Valid()
      ensures starting == old(starting) - {client}
      ensures clients == if client in old(starting) && !closed then old(clients)[client := cursor] else old(clients)
      ensures client in old(starting) && !closed ==> initial == old(initial)[client := cursor] && delivered == old(delivered)[client := []]
      ensures client !in old(starting) || closed ==> initial == old(initial) && delivered == old(delivered)
    {
      if client in starting && closed {
        Withdraw(client);
      } else if client in starting {
        Connect(client, cursor);
      }
    }

    method Connect(client: ClientId, cursor: int)
      requires Valid() && client in starting
      modifies this`starting, this`clients, this`initial, this`delivered
      ensures Valid()
      ensures starting == old(starting) - {client} && clients == old(clients)[client := cursor]
      ensures initial == old(initial)[client := cursor] && delivered == old(delivered)[client := []]
    {
      Recounted(starting, clients, admittedClients, maxClients, client, cursor);
      Joins(appended, log.lastId, requests, nextRequest, starting, clients, nextClient, initial, delivered, client, cursor);
      starting, clients := starting - {client}, clients[client := cursor];
      initial, delivered := initial[client := cursor], delivered[client := []];
    }

    method Withdraw(client: ClientId)
      requires Valid() && client in starting
      modifies this`starting, this`admittedClients
      ensures Valid() && starting == old(starting) - {client}
    {
      Recounted(starting, clients, admittedClients, maxClients, client, 0);
      starting, admittedClients := starting - {client}, admittedClients - 1;
    }

    method Disconnect(client: ClientId)
      requires Valid() && client in clients
      modifies this`clients, this`admittedClients
      ensures Valid() && clients == old(clients) - {client}
    {
      CountedWithout(starting, clients, admittedClients, maxClients, client);
      Leaves(appended, log.lastId, requests, nextRequest, starting, clients, nextClient, initial, delivered, client);
      clients, admittedClients := clients - {client}, admittedClients - 1;
    }

    /** The client goes away. */
    method Release(client: ClientId)
      requires Valid()
      modifies this`starting, this`clients, this`admittedClients
      ensures Valid()
      ensures starting == old(starting) - {client} && clients == old(clients) - {client}
    {
      if client in clients {
        Disconnect(client);
      } else {
        NotConnected(clients, client);
        if client in starting {
          Withdraw(client);
        }
      }
    }

    // -------------------------------------------------------------- polling

    /** Asks the log on behalf of the selected cohorts of ready clients. */
    method BeginPoll(ready: set<ClientId>) returns (selected: seq<int>)
      requires Valid() && ready <= clients.Keys
      modifies this`polling, this`cohortOffset, this`requests, this`nextRequest
      ensures Valid()
      ensures old(polling) || closed || ready == {} ==> selected == [] && polling == old(polling)
      ensures AskedFor(old(requests), old(nextRequest), clients, ready, selected, requests)
      ensures nextRequest == old(nextRequest) + |selected|
      ensures if old(polling) || closed || ready == {} then cohortOffset == old(cohortOffset)
              else |selected| == Min(|Cohorts(clients, ready)|, 4) && cohortOffset == NextOffset(clients, ready, old(cohortOffset))
      ensures !old(polling) && !closed ==> forall c :: c in ready && Leads(clients, ready, c) ==>
                clients[c] in selected
    {
      if polling || closed || ready == {} {
        return [];
      }
      selected, cohortOffset := SelectReady(clients, ready, cohortOffset);
      Ask(ready, selected);
    }

    method Ask(ready: set<ClientId>, selected: seq<int>)
      requires Valid()
      modifies this`polling, this`requests, this`nextRequest
      ensures Valid() && polling
      ensures AskedFor(old(requests), old(nextRequest), clients, ready, selected, requests)
      ensures nextRequest == old(nextRequest) + |selected|
    {
      RequestedExactly(requests, nextRequest, clients, ready, selected);
      RequestedOk(appended, log.lastId, requests, nextRequest, initial, clients, ready, selected);
      RequestedUnanswered(appended, requests, asOf, nextRequest, clients, ready, selected);
      polling, requests := true, Requested(requests, nextRequest, clients, ready, selected);
      nextRequest := nextRequest + |selected|;
    }

    /** The log answers a read with its state of this moment: with a reset exactly if rows after the
        cursor have been pruned, and with the first page of what lies above it otherwise. */
    method Answer(r: nat)
      requires Valid() && r in requests && requests[r].answer.None?
      modifies this`requests, this`asOf
      ensures Valid() && asOf == old(asOf)[r := appended]
      ensures r in requests && requests[r].answer.Some?
      ensures requests == old(requests)[r := old(requests)[r].(answer := requests[r].answer)]
      ensures var answer := requests[r].answer.value;
              if requests[r].cursor < log.prunedThrough
              then |answer| == 1 && answer[0].reset && NewestKnown(log, answer[0].id)
              else FirstOf(appended, requests[r].cursor, 250, answer) && forall e :: e in answer ==> !e.reset
    {
      var answer := EventsAfter(log, requests[r].cursor, PAGE);
      EventsAfterExactly(log, appended, requests[r].cursor, PAGE);
      EventsAfterIsWindow(log, appended, requests[r].cursor, PAGE);
      if |Waiting(appended, requests[r].cursor)| <= PAGE {
        FewAreReached(log, appended, requests[r].cursor, PAGE);
      }
      AnsweredOk(appended, log.lastId, requests, nextRequest, initial, clients, r, answer);
      AnswerKept(appended, requests, asOf, r, answer);
      requests, asOf := requests[r := requests[r].(answer := Some(answer))], asOf[r := appended];
    }

    /** A read fails. Its poll ends at once, while the other reads of that poll stay in flight. */
    method Fail(r: nat)
      requires Valid()
      modifies this`requests, this`polling
      ensures Valid() && requests == old(requests) - {r} && !polling
    {
      requests := requests - {r};
      polling := false;
    }

    method EndPoll()
      requires Valid()
      modifies this`polling
      ensures Valid() && !polling
    {
      polling := false;
    }

    method Advance(client: ClientId, cursor: int, ghost told: seq<Delivery>)
      requires Valid() && client in clients && clients[client] <= cursor == CursorOf(initial[client], told)
      requires NoSilentGap(appended, log.lastId, initial[client], told)
      modifies this`clients, this`delivered
      ensures Valid() && clients == old(clients)[client := cursor] && delivered == old(delivered)[client := told]
    {
      OneToldMore(appended, log.lastId, initial, delivered, client, told);
      OneAtItsEnd(clients, initial, delivered, client, cursor, told);
      OneAdvances(appended, log.lastId, requests, nextRequest, clients, initial, client, cursor);
      SameCount(clients, client, cursor);
      clients, delivered := clients[client := cursor], delivered[client := told];
    }

    /** Hands an answer to one client. */
    method EnqueueEvents(client: ClientId, request: Request, signals: int -> Signal) returns (ghost handed: Handing)
      requires Valid() && client in clients && client in request.members
      requires request.answer.Some? && RequestOk(appended, log.lastId, request, initial, clients)
      modifies this`clients, this`admittedClients, this`latestCursor, this`delivered
      ensures Valid() && Handed(request.answer.value, signals, old(clients)[client], old(latestCursor), handed)
      ensures delivered == old(delivered)[client := old(delivered)[client] + handed.sent] && latestCursor == handed.latest
      ensures clients == if handed.gone then old(clients) - {client} else old(clients)[client := handed.cursor]
    {
      var gone;
      gone, handed := SendEvents(client, request, signals);
      if gone {
        Forgotten(old(clients), client, handed.cursor);
        Disconnect(client);
      }
    }

    method SendEvents(client: ClientId, request: Request, signals: int -> Signal) returns (gone: bool, ghost handed: Handing)
      requires Valid() && client in clients && client in request.members
      requires request.answer.Some? && RequestOk(appended, log.lastId, request, initial, clients)
      modifies this`clients, this`latestCursor, this`delivered
      ensures Valid() && Handed(request.answer.value, signals, old(clients)[client], old(latestCursor), handed) && gone == handed.gone
      ensures delivered == old(delivered)[client := old(delivered)[client] + handed.sent] && latestCursor == handed.latest
      ensures clients == old(clients)[client := handed.cursor]
    {
      var cursor: int;
      var latest: Option<int>;
      cursor, gone, latest, handed := Offer(request.answer.value, clients[client], signals, latestCursor);
      HandingLeavesNoGap(appended, log.lastId, request.cursor, request.answer.value, signals, latestCursor, handed, initial[client], delivered[client]);
      Advance(client, cursor, delivered[client] + handed.sent);
      latestCursor := latest;
    }

    /** Hands an answer to the clients of its cohort that are still connected. */
    method Deliver(r: nat, signals: (ClientId, int) -> Signal)
      requires Valid() && r in requests && requests[r].answer.Some?
      modifies this`clients, this`admittedClients, this`latestCursor, this`delivered, this`requests
      ensures Valid() && requests == old(requests) - {r} && OnlyMore(old(delivered), delivered)
      ensures AlwaysRoom(signals) ==> clients.Keys == old(clients.Keys) && Served(clients, old(requests)[r], old(requests)[r].members)
      ensures r in asOf && asOf[r] <= appended
      ensures AlwaysRoom(signals) && |Waiting(asOf[r], old(requests)[r].cursor)| <= 250 ==>
                forall c, e :: c in old(requests)[r].members && c in clients && e in asOf[r] && initial[c] < e.id ==> Told(delivered[c], e)
    {
      ghost var request := requests[r];
      assert AnswerOk(appended, request, asOf, r);
      DeliverAll(r, signals);
      if AlwaysRoom(signals) && |Waiting(asOf[r], request.cursor)| <= PAGE {
        AllHaveHeard(r);
      }
      Withdrawn(appended, log.lastId, requests, nextRequest, initial, clients, r);
      AnswersWithout(appended, requests, asOf, r);
      requests := requests - {r};
    }

    method DeliverAll(r: nat, signals: (ClientId, int) -> Signal)
      requires Valid() && r in requests && requests[r].answer.Some?
      modifies this`clients, this`admittedClients, this`latestCursor, this`delivered
      ensures Valid() && OnlyMore(old(delivered), delivered)
      ensures AlwaysRoom(signals) ==> clients.Keys == old(clients.Keys) && Served(clients, requests[r], requests[r].members)
    {
      var rest := requests[r].members;
      while rest != {}
        invariant Valid() && rest <= requests[r].members && OnlyMore(old(delivered), delivered)
        invariant AlwaysRoom(signals) ==> clients.Keys == old(clients.Keys) && Served(clients, requests[r], requests[r].members - rest)
        decreases |rest|
      {
        var c :| c in rest;
        ghost var before, sent := requests[r].members - rest, delivered;
        rest := rest - {c};
        DeliverTo(c, r, i => signals(c, i), before);
        MoreAndMore(old(delivered), sent, delivered);
        assert requests[r].members - rest == before + {c};
      }
      assert requests[r].members - {} == requests[r].members;
    }

    method DeliverTo(c: ClientId, r: nat, signals: int -> Signal, ghost before: set<ClientId>)
      requires Valid() && r in requests && requests[r].answer.Some? && c in requests[r].members && c !in before
      modifies this`clients, this`admittedClients, this`latestCursor, this`delivered
      ensures Valid() && OnlyMore(old(delivered), delivered)
      ensures (forall i :: signals(i).Room?) ==>
                clients.Keys == old(clients.Keys) && (old(Served(clients, requests[r], before)) ==> Served(clients, requests[r], before + {c}))
    {
      if c in clients {
        assert RequestOk(appended, log.lastId, requests[r], initial, clients);
        ghost var sent, cursor, latest := delivered, clients[c], latestCursor;
        ghost var handed := EnqueueEvents(c, requests[r], signals);
        HeardToTheEnd(requests[r].answer.value, signals, cursor, latest, handed);
        OneMore(sent, delivered, c);
      }
    }

    /** Once its whole answer has been handed out, the members of a read have been told everything that
        had been appended when it was answered, if that fitted into the answer. */
    lemma AllHaveHeard(r: nat)
      requires Valid() && r in requests && requests[r].answer.Some? && Served(clients, requests[r], requests[r].members)
      requires r in asOf && |Waiting(asOf[r], requests[r].cursor)| <= PAGE
      ensures forall c, e :: c in requests[r].members && c in clients && e in asOf[r] && initial[c] < e.id ==> Told(delivered[c], e)
    {
      assert AnswerOk(appended, requests[r], asOf, r) && RequestOk(appended, log.lastId, requests[r], initial, clients);
      forall c, e | c in requests[r].members && c in clients && e in asOf[r] && initial[c] < e.id
        ensures Told(delivered[c], e)
      {
        assert e in appended && e.id <= clients[c];
        NothingWithheld(c, e);
      }
    }

    // -------------------------------------------------------------- closing

    /** No new client and no new poll from here on. */
    method BeginClose()
      requires Valid()
      modifies this`closed
      ensures Valid() && closed
    {
      closed := true;
    }

    /** Once the poll under way is over, every connected client goes. */
    method FinishClose()
      requires Valid() && closed && !polling
      modifies this`starting, this`clients, this`admittedClients
      ensures Valid() && clients == map[] && starting == old(starting) && admittedClients == |starting|
    {
      while clients.Keys != {}
        invariant Valid() && starting == old(starting)
        decreases |clients.Keys|
      {
        var c :| c in clients.Keys;
        Disconnect(c);
      }
    }

    /** Whatever a client was sent and however it came to its cursor: every event appended between its
        first cursor and its last was sent to it, or lies in a stretch that a reset sent to it stands for. */
    lemma NothingWithheld(c: ClientId, e: Event)
      requires Valid() && c in initial
      requires e in appended && initial[c] < e.id <= CursorOf(initial[c], delivered[c])
      ensures Told(delivered[c], e) && Rising(delivered[c])
      ensures c in clients ==> clients[c] == CursorOf(initial[c], delivered[c])
    {
      assert NoSilentGap(appended, log.lastId, initial[c], delivered[c]);
      assert Told(delivered[c], e);
    }
  }

  // ---------------------------------------------------------------- offering events

  lemma Forgotten(clients: map<ClientId, int>, client: ClientId, cursor: int)
    ensures clients[client := cursor] - {client} == clients - {client}
  {
  }

  /** What was sent stays sent. */
  ghost predicate OnlyMore(before: map<ClientId, seq<Delivery>>, after: map<ClientId, seq<Delivery>>) {
    before.Keys == after.Keys && forall c {:trigger Extends(before, after, c)} :: c in before ==> Extends(before, after, c)
  }

  ghost predicate Extends(before: map<ClientId, seq<Delivery>>, after: map<ClientId, seq<Delivery>>, c: ClientId)
    requires c in before && c in after
  {
    before[c] <= after[c]
  }

  lemma OneMore(before: map<ClientId, seq<Delivery>>, after: map<ClientId, seq<Delivery>>, c: ClientId)
    requires c in before && c in after && after == before[c := after[c]] && before[c] <= after[c]
    ensures OnlyMore(before, after)
  {
  }

  lemma MoreAndMore(first: map<ClientId, seq<Delivery>>, before: map<ClientId, seq<Delivery>>, after: map<ClientId, seq<Delivery>>)
    requires OnlyMore(first, before) && OnlyMore(before, after)
    ensures OnlyMore(first, after)
  {
    forall d | d in first
      ensures Extends(first, after, d)
    {
      assert Extends(first, before, d) && Extends(before, after, d);
    }
  }

  ghost predicate AlwaysRoom(signals: (ClientId, int) -> Signal) {
    forall c, i :: signals(c, i).Room?
  }

  /** These clients, as far as connected, have the whole answer. */
  predicate Served(clients: map<ClientId, int>, request: Request, served: set<ClientId>)
    requires request.answer.Some?
  {
    forall c :: c in served && c in clients ==> ReachesEnd(request.answer.value, clients[c])
  }

  predicate ReachesEnd(events: seq<Event>, cursor: int) {
    forall i :: 0 <= i < |events| ==> events[i].id <= cursor
  }

  /** The id of the last event, or else `cursor`. */
  function LastId(cursor: int, es: seq<Event>): int {
    if es == [] then cursor else es[|es| - 1].id
  }

  /** The events sent one after the other to a client that stands at `cursor`. */
  function Sent(cursor: int, es: seq<Event>): seq<Delivery> {
    if es == [] then [] else Sent(cursor, es[..|es| - 1]) + [Delivery(LastId(cursor, es[..|es| - 1]), es[|es| - 1])]
  }

  /** Sending stops at the first event above the cursor for which there is no room, and only a stream that
      is gone is given up. */
  ghost predicate StopsAt(events: seq<Event>, stop: nat, signals: int -> Signal, cursor: int, gone: bool)
    requires stop <= |events|
  {
    && (forall k :: 0 <= k < stop && events[k].id > cursor ==> signals(k).Room?)
    && (stop < |events| ==> events[stop].id > cursor && !signals(stop).Room?)
    && (gone <==> stop < |events| && signals(stop).Gone?)
  }

  /** What becomes of an answer offered to a client: it is sent the events above its cursor up to where
      sending stops, and the newest id seen is that of all events up to there, the last one looked at
      included. */
  datatype Handing = Handing(stop: nat, sent: seq<Delivery>, cursor: int, gone: bool, latest: Option<int>)

  ghost predicate Handed(events: seq<Event>, signals: int -> Signal, cursor: int, latest: Option<int>, h: Handing) {
    && h.stop <= |events| && StopsAt(events, h.stop, signals, cursor, h.gone)
    && h.sent == Sent(cursor, After(events[..h.stop], cursor)) && h.cursor == LastId(cursor, After(events[..h.stop], cursor))
    && Seen(latest, h.latest, events, if h.stop < |events| then h.stop + 1 else h.stop)
  }

  /** Where a client stands that has been offered the first `i` events. */
  lemma {:induction false} StandsAt(events: seq<Event>, i: nat, cursor: int)
    requires LiveEvents.Ascending(events) && i <= |events|
    ensures var at := LastId(cursor, After(events[..i], cursor));
            && cursor <= at && (forall k :: 0 <= k < i ==> events[k].id <= at)
            && (at == cursor || (i > 0 && at == events[i - 1].id))
  {
    if i > 0 {
      StandsAt(events, i - 1, cursor);
      assert events[..i][..i - 1] == events[..i - 1];
    }
  }

  /** Sends the events above the cursor one by one, until the stream is full or gone. */
  method Offer(events: seq<Event>, cursor: int, signals: int -> Signal, latestCursor: Option<int>)
    returns (cursor': int, gone: bool, latestCursor': Option<int>, ghost handed: Handing)
    requires LiveEvents.Ascending(events)
    ensures Handed(events, signals, cursor, latestCursor, handed)
    ensures cursor' == handed.cursor && gone == handed.gone && latestCursor' == handed.latest
  {
    cursor', gone, latestCursor' := cursor, false, latestCursor;
    ghost var stop := |events|;
    for i := 0 to |events|
      invariant !gone && stop == |events| && Seen(latestCursor, latestCursor', events, i)
      invariant cursor' == LastId(cursor, After(events[..i], cursor))
      invariant forall k :: 0 <= k < i && events[k].id > cursor ==> signals(k).Room?
    {
      StandsAt(events, i, cursor);
      assert events[..i + 1][..i] == events[..i];
      OneMoreSeen(latestCursor, latestCursor', events, i);
      latestCursor' := Newer(latestCursor', events[i].id);
      if events[i].id <= cursor' {
        continue;
      }
      if signals(i).Full? {
        stop := i;
        break;
      }
      if signals(i).Gone? {
        gone, stop := true, i;
        break;
      }
      cursor' := events[i].id;
    }
    handed := Handing(stop, Sent(cursor, After(events[..stop], cursor)), cursor', gone, latestCursor');
  }

  lemma AfterMore(events: seq<Event>, i: nat, cursor: int)
    requires i < |events|
    ensures After(events[..i + 1], cursor) == if events[i].id > cursor then After(events[..i], cursor) + [events[i]] else After(events[..i], cursor)
  {
    assert events[..i + 1][..i] == events[..i];
  }

  lemma SentMore(cursor: int, es: seq<Event>, e: Event)
    ensures Sent(cursor, es + [e]) == Sent(cursor, es) + [Delivery(LastId(cursor, es), e)]
  {
    assert (es + [e])[..|es|] == es;
  }

  /** What is sent that way leaves no silent gap. */
  lemma {:induction false} SentLeavesNoGap(appended: seq<Event>, lastId: int, asked: int, events: seq<Event>, count: nat, initial: int,
                                          delivered: seq<Delivery>, cursor: int)
    requires Window(appended, lastId, asked, events) && count <= |events|
    requires NoSilentGap(appended, lastId, initial, delivered) && asked <= CursorOf(initial, delivered) == cursor
    ensures var heard := After(events[..count], cursor);
            && NoSilentGap(appended, lastId, initial, delivered + Sent(cursor, heard))
            && CursorOf(initial, delivered + Sent(cursor, heard)) == LastId(cursor, heard)
  {
    if count == 0 {
      assert delivered + [] == delivered;
    } else {
      SentLeavesNoGap(appended, lastId, asked, events, count - 1, initial, delivered, cursor);
      var heard := After(events[..count - 1], cursor);
      AfterMore(events, count - 1, cursor);
      StandsAt(events, count - 1, cursor);
      if events[count - 1].id > cursor {
        OneMoreLeavesNoGap(appended, lastId, asked, events, count - 1, initial, delivered, cursor, heard);
      }
    }
  }

  lemma OneMoreLeavesNoGap(appended: seq<Event>, lastId: int, asked: int, events: seq<Event>, i: nat, initial: int, delivered: seq<Delivery>,
                           cursor: int, heard: seq<Event>)
    requires Window(appended, lastId, asked, events) && i < |events|
    requires NoSilentGap(appended, lastId, initial, delivered + Sent(cursor, heard))
    requires CursorOf(initial, delivered + Sent(cursor, heard)) == LastId(cursor, heard)
    requires asked <= LastId(cursor, heard) < events[i].id && forall k :: 0 <= k < i ==> events[k].id <= LastId(cursor, heard)
    ensures var after := delivered + Sent(cursor, heard + [events[i]]);
            NoSilentGap(appended, lastId, initial, after) && CursorOf(initial, after) == LastId(cursor, heard + [events[i]])
  {
    DeliverNext(appended, lastId, asked, events, i, initial, delivered + Sent(cursor, heard));
    SentMore(cursor, heard, events[i]);
    assert delivered + Sent(cursor, heard + [events[i]]) == delivered + Sent(cursor, heard) + [Delivery(LastId(cursor, heard), events[i])];
  }

  lemma HandingLeavesNoGap(appended: seq<Event>, lastId: int, asked: int, events: seq<Event>, signals: int -> Signal, latest: Option<int>,
                           h: Handing, initial: int, delivered: seq<Delivery>)
    requires Window(appended, lastId, asked, events) && Handed(events, signals, CursorOf(initial, delivered), latest, h)
    requires NoSilentGap(appended, lastId, initial, delivered) && asked <= CursorOf(initial, delivered)
    ensures NoSilentGap(appended, lastId, initial, delivered + h.sent)
    ensures CursorOf(initial, delivered) <= h.cursor == CursorOf(initial, delivered + h.sent)
  {
    SentLeavesNoGap(appended, lastId, asked, events, h.stop, initial, delivered, CursorOf(initial, delivered));
    StandsAt(events, h.stop, CursorOf(initial, delivered));
  }

  /** With room for all of it, an answer is heard to its end. */
  lemma HeardToTheEnd(events: seq<Event>, signals: int -> Signal, cursor: int, latest: Option<int>, h: Handing)
    requires LiveEvents.Ascending(events) && Handed(events, signals, cursor, latest, h)
    ensures cursor <= h.cursor
    ensures (forall i :: signals(i).Room?) ==> !h.gone && ReachesEnd(events, h.cursor)
  {
    StandsAt(events, h.stop, cursor);
  }

  lemma OneToldMore(appended: seq<Event>, lastId: int, initial: map<ClientId, int>, delivered: map<ClientId, seq<Delivery>>,
                    c: ClientId, told: seq<Delivery>)
    requires AllTold(appended, lastId, initial, delivered) && c in initial && NoSilentGap(appended, lastId, initial[c], told)
    ensures AllTold(appended, lastId, initial, delivered[c := told])
  {
  }

  lemma OneAtItsEnd(clients: map<ClientId, int>, initial: map<ClientId, int>, delivered: map<ClientId, seq<Delivery>>,
                    c: ClientId, cursor: int, told: seq<Delivery>)
    requires AtTheirEnds(clients, initial, delivered) && c in initial && cursor == CursorOf(initial[c], told)
    ensures AtTheirEnds(clients[c := cursor], initial, delivered[c := told])
  {
  }

  lemma OneAdvances(appended: seq<Event>, lastId: int, requests: map<nat, Request>, nextRequest: nat, clients: map<ClientId, int>,
                    initial: map<ClientId, int>, c: ClientId, cursor: int)
    requires RequestsOk(appended, lastId, requests, nextRequest, initial, clients) && c in clients && clients[c] <= cursor
    ensures RequestsOk(appended, lastId, requests, nextRequest, initial, clients[c := cursor])
  {
    forall r | r in requests
      ensures RequestOk(appended, lastId, requests[r], initial, clients[c := cursor])
    {
      assert RequestOk(appended, lastId, requests[r], initial, clients);
    }
  }

  lemma SameCount(clients: map<ClientId, int>, c: ClientId, cursor: int)
    requires c in clients
    ensures clients[c := cursor].Keys == clients.Keys && |clients[c := cursor]| == |clients|
  {
    assert clients[c := cursor].Keys == clients.Keys;
    assert |clients| == |clients.Keys|;
  }

  /** The cursors to read after: that of the clients that are furthest along, and some others. */
  method SelectReady(clients: map<ClientId, int>, ready: set<ClientId>, offset: nat) returns (selected: seq<int>, nextOffset: nat)
    requires ready <= clients.Keys
    ensures |selected| == Min(|Cohorts(clients, ready)|, 4) && nextOffset == NextOffset(clients, ready, offset)
    ensures forall c :: c in ready && Leads(clients, ready, c) ==> clients[c] in selected
    ensures forall x :: x in selected ==> exists c :: c in ready && AtCursor(clients, c, x)
    ensures forall i, j :: 0 <= i < j < |selected| ==> selected[i] != selected[j]
  {
    var cursors := CohortCursors(clients, ready);
    selected, nextOffset := SelectCohorts(cursors, offset);
    CursorsAreCohorts(clients, ready, cursors);
    NewestIsSelected(clients, ready, cursors, selected);
  }

  // ---------------------------------------------------------------- reads in flight

  lemma AnswersWithout(appended: seq<Event>, requests: map<nat, Request>, asOf: map<nat, seq<Event>>, r: nat)
    requires AnswersOk(appended, requests, asOf)
    ensures AnswersOk(appended, requests - {r}, asOf)
  {
    forall q | q in requests - {r}
      ensures AnswerOk(appended, (requests - {r})[q], asOf, q)
    {
      assert AnswerOk(appended, requests[q], asOf, q);
    }
  }

  lemma Withdrawn(appended: seq<Event>, lastId: int, requests: map<nat, Request>, nextRequest: nat, initial: map<ClientId, int>,
                  clients: map<ClientId, int>, r: nat)
    requires RequestsOk(appended, lastId, requests, nextRequest, initial, clients)
    ensures RequestsOk(appended, lastId, requests - {r}, nextRequest, initial, clients)
  {
    forall q | q in requests - {r}
      ensures RequestOk(appended, lastId, (requests - {r})[q], initial, clients)
    {
      assert RequestOk(appended, lastId, requests[q], initial, clients);
    }
  }

  lemma AnsweredOk(appended: seq<Event>, lastId: int, requests: map<nat, Request>, nextRequest: nat, initial: map<ClientId, int>,
                   clients: map<ClientId, int>, r: nat, answer: seq<Event>)
    requires RequestsOk(appended, lastId, requests, nextRequest, initial, clients) && r in requests
    requires Window(appended, lastId, requests[r].cursor, answer)
    ensures RequestsOk(appended, lastId, requests[r := requests[r].(answer := Some(answer))], nextRequest, initial, clients)
  {
    assert RequestOk(appended, lastId, requests[r], initial, clients);
    var after := requests[r := requests[r].(answer := Some(answer))];
    forall q | q in after
      ensures RequestOk(appended, lastId, after[q], initial, clients)
    {
      assert q != r ==> RequestOk(appended, lastId, requests[q], initial, clients);
    }
  }

  /** One read per selected cohort. */
  function Requested(requests: map<nat, Request>, next: nat, clients: map<ClientId, int>, ready: set<ClientId>, selected: seq<int>): map<nat, Request> {
    if selected == [] then requests
    else
      var front, last := selected[..|selected| - 1], selected[|selected| - 1];
      Requested(requests, next, clients, ready, front)[next + |front| := Request(last, Cohort(clients, ready, last), None)]
  }

  /** There is one more read for each selected cursor, on behalf of exactly the ready clients that are at
      it; the others are as they were. */
  ghost predicate AskedFor(before: map<nat, Request>, next: nat, clients: map<ClientId, int>, ready: set<ClientId>, selected: seq<int>,
                     after: map<nat, Request>)
  {
    && (forall r :: r in after <==> r in before || next <= r < next + |selected|)
    && (forall r :: r in before && r < next ==> r in after && after[r] == before[r])
    && (forall i :: 0 <= i < |selected| ==> next + i in after && IsReadFor(after[next + i], clients, ready, selected[i]))
  }

  ghost predicate IsReadFor(request: Request, clients: map<ClientId, int>, ready: set<ClientId>, cursor: int) {
    && request.cursor == cursor && request.answer.None?
    && forall c :: c in request.members <==> c in ready && c in clients && clients[c] == cursor
  }

  lemma {:induction false} RequestedExactly(requests: map<nat, Request>, next: nat, clients: map<ClientId, int>, ready: set<ClientId>,
                                           selected: seq<int>)
    ensures AskedFor(requests, next, clients, ready, selected, Requested(requests, next, clients, ready, selected))
  {
    if selected != [] {
      RequestedExactly(requests, next, clients, ready, selected[..|selected| - 1]);
    }
  }

  lemma {:induction false} RequestedOk(appended: seq<Event>, lastId: int, requests: map<nat, Request>, next: nat, initial: map<ClientId, int>,
                                      clients: map<ClientId, int>, ready: set<ClientId>, selected: seq<int>)
    requires RequestsOk(appended, lastId, requests, next, initial, clients) && forall c :: c in clients ==> c in initial
    ensures RequestsOk(appended, lastId, Requested(requests, next, clients, ready, selected), next + |selected|, initial, clients)
  {
    if selected != [] {
      var front, last := selected[..|selected| - 1], selected[|selected| - 1];
      RequestedOk(appended, lastId, requests, next, initial, clients, ready, front);
      assert RequestOk(appended, lastId, Request(last, Cohort(clients, ready, last), None), initial, clients);
    }
  }

  lemma NewestIsSelected(clients: map<ClientId, int>, ready: set<ClientId>, cursors: seq<int>, selected: seq<int>)
    requires ready <= clients.Keys && Descending(cursors)
    requires forall x :: x in cursors <==> exists d :: d in ready && AtCursor(clients, d, x)
    requires cursors != [] ==> selected != [] && selected[0] == cursors[0]
    ensures forall c :: c in ready && Leads(clients, ready, c) ==> clients[c] in selected
  {
    forall c | c in ready && Leads(clients, ready, c)
      ensures clients[c] in selected
    {
      NewestIsFirst(clients, ready, cursors, c);
      assert selected[0] in selected;
    }
  }

  lemma ToldStaysAfterAppend(appended: seq<Event>, lastId: int, initial: map<ClientId, int>, delivered: map<ClientId, seq<Delivery>>, e: Event)
    requires AllTold(appended, lastId, initial, delivered) && e.id > lastId
    ensures AllTold(appended + [e], e.id, initial, delivered)
  {
    forall c | c in initial
      ensures NoSilentGap(appended + [e], e.id, initial[c], delivered[c])
    {
      GapStays(appended, lastId, initial[c], delivered[c], e);
    }
  }

  lemma RequestsStayAfterAppend(appended: seq<Event>, lastId: int, requests: map<nat, Request>, nextRequest: nat,
                                initial: map<ClientId, int>, clients: map<ClientId, int>, e: Event)
    requires RequestsOk(appended, lastId, requests, nextRequest, initial, clients) && e.id > lastId
    ensures RequestsOk(appended + [e], e.id, requests, nextRequest, initial, clients)
  {
    forall r | r in requests
      ensures RequestOk(appended + [e], e.id, requests[r], initial, clients)
    {
      assert RequestOk(appended, lastId, requests[r], initial, clients);
      if requests[r].answer.Some? {
        WindowStays(appended, lastId, requests[r].cursor, requests[r].answer.value, e);
      }
    }
  }

  lemma AnswersStayAfterAppend(appended: seq<Event>, requests: map<nat, Request>, asOf: map<nat, seq<Event>>, e: Event)
    requires AnswersOk(appended, requests, asOf)
    ensures AnswersOk(appended + [e], requests, asOf)
  {
    forall r | r in requests
      ensures AnswerOk(appended + [e], requests[r], asOf, r)
    {
      assert AnswerOk(appended, requests[r], asOf, r);
    }
  }

  lemma {:induction false} RequestedUnanswered(appended: seq<Event>, requests: map<nat, Request>, asOf: map<nat, seq<Event>>, next: nat,
                                              clients: map<ClientId, int>, ready: set<ClientId>, selected: seq<int>)
    requires AnswersOk(appended, requests, asOf)
    ensures AnswersOk(appended, Requested(requests, next, clients, ready, selected), asOf)
  {
    if selected != [] {
      RequestedUnanswered(appended, requests, asOf, next, clients, ready, selected[..|selected| - 1]);
    }
  }

  lemma AnswerKept(appended: seq<Event>, requests: map<nat, Request>, asOf: map<nat, seq<Event>>, r: nat, answer: seq<Event>)
    requires AnswersOk(appended, requests, asOf) && r in requests
    requires |Waiting(appended, requests[r].cursor)| <= PAGE ==> ReachesAll(appended, requests[r].cursor, answer)
    ensures AnswersOk(appended, requests[r := requests[r].(answer := Some(answer))], asOf[r := appended])
  {
    var after := requests[r := requests[r].(answer := Some(answer))];
    forall q | q in after
      ensures AnswerOk(appended, after[q], asOf[r := appended], q)
    {
      if q != r {
        assert AnswerOk(appended, requests[q], asOf, q);
      }
    }
  }

  /** A new client starts with nothing to be told. */
  lemma Joins(appended: seq<Event>, lastId: int, requests: map<nat, Request>, nextRequest: nat, starting: set<ClientId>, clients: map<ClientId, int>,
              nextClient: nat, initial: map<ClientId, int>, delivered: map<ClientId, seq<Delivery>>, c: ClientId, cursor: int)
    requires Known(starting, clients, nextClient, initial) && AtTheirEnds(clients, initial, delivered) && AllTold(appended, lastId, initial, delivered)
    requires RequestsOk(appended, lastId, requests, nextRequest, initial, clients) && c in starting
    ensures Known(starting - {c}, clients[c := cursor], nextClient, initial[c := cursor])
    ensures AtTheirEnds(clients[c := cursor], initial[c := cursor], delivered[c := []])
    ensures AllTold(appended, lastId, initial[c := cursor], delivered[c := []])
    ensures RequestsOk(appended, lastId, requests, nextRequest, initial[c := cursor], clients[c := cursor])
  {
    assert NoSilentGap(appended, lastId, cursor, []);
    forall r | r in requests
      ensures RequestOk(appended, lastId, requests[r], initial[c := cursor], clients[c := cursor])
    {
      assert RequestOk(appended, lastId, requests[r], initial, clients);
      assert c !in requests[r].members;
    }
  }

  lemma Leaves(appended: seq<Event>, lastId: int, requests: map<nat, Request>, nextRequest: nat, starting: set<ClientId>, clients: map<ClientId, int>,
               nextClient: nat, initial: map<ClientId, int>, delivered: map<ClientId, seq<Delivery>>, c: ClientId)
    requires RequestsOk(appended, lastId, requests, nextRequest, initial, clients)
    requires Known(starting, clients, nextClient, initial) && AtTheirEnds(clients, initial, delivered)
    ensures RequestsOk(appended, lastId, requests, nextRequest, initial, clients - {c})
    ensures Known(starting, clients - {c}, nextClient, initial) && AtTheirEnds(clients - {c}, initial, delivered)
  {
    forall r | r in requests
      ensures RequestOk(appended, lastId, requests[r], initial, clients - {c})
    {
      assert RequestOk(appended, lastId, requests[r], initial, clients);
    }
  }

  /** A stream is counted from its admission to its release, whether it got to connect or not. */
  lemma Recounted(starting: set<ClientId>, clients: map<ClientId, int>, admitted: nat, maxClients: nat, c: ClientId, cursor: int)
    requires Counted(starting, clients, admitted, maxClients) && c in starting
    ensures Counted(starting - {c}, clients[c := cursor], admitted, maxClients)
    ensures admitted > 0 && Counted(starting - {c}, clients, admitted - 1, maxClients)
  {
  }

  lemma CountedWithout(starting: set<ClientId>, clients: map<ClientId, int>, admitted: nat, maxClients: nat, c: ClientId)
    requires Counted(starting, clients, admitted, maxClients) && c in clients
    ensures admitted > 0 && Counted(starting, clients - {c}, admitted - 1, maxClients)
  {
    CountWithout(clients, c);
  }

  lemma NotConnected(clients: map<ClientId, int>, c: ClientId)
    requires c !in clients
    ensures clients - {c} == clients
  {
  }

  lemma CountWithout(clients: map<ClientId, int>, client: ClientId)
    requires client in clients
    ensures |clients - {client}| == |clients| - 1
  {
    assert (clients - {client}).Keys == clients.Keys - {client};
    assert |clients.Keys| == |clients|;
  }

  lemma NewestIsFirst(clients: map<ClientId, int>, ready: set<ClientId>, cursors: seq<int>, c: ClientId)
    requires ready <= clients.Keys && Descending(cursors)
    requires forall x :: x in cursors <==> exists d :: d in ready && AtCursor(clients, d, x)
    requires c in ready && Leads(clients, ready, c)
    ensures cursors != [] && cursors[0] == clients[c]
  {
    assert AtCursor(clients, c, clients[c]) && clients[c] in cursors;
    var i :| 0 <= i < |cursors| && cursors[i] == clients[c];
    assert cursors[0] in cursors;
    var d :| d in ready && AtCursor(clients, d, cursors[0]);
  }
}
