/** Keeping refreshes in the browser from overlapping: a gate that runs one operation at a time, a
    coordinator that folds requests into the refresh under way, and a loader that supersedes. */
module Refresh {
  import opened Records

  // ---------------------------------------------------------------- the gate

  datatype Status = Waiting | Running | Settled

  /** Each operation waits for the one submitted before it, if that has not been cleared yet. An
      operation that throws settles like any other, and a reservation is an operation that settles
      when it is released. */
  class RefreshGate {
    var requests: seq<Status>
    // the request that a new one has to wait for
    var active: Option<nat>
    ghost var starts: seq<nat>

    /** The number of settled requests: they come first. */
    ghost predicate UpTo(settled: nat)
      reads this
    {
      && settled <= |requests|
      && (forall i :: 0 <= i < settled ==> requests[i].Settled?)
      && (forall i :: settled < i < |requests| ==> requests[i].Waiting?)
      && (settled < |requests| ==> !requests[settled].Settled?)
      && starts == seq(if settled < |requests| && requests[settled].Running? then settled + 1 else settled, i => i)
    }

    ghost predicate Valid()
      reads this
    {
      && (exists settled :: UpTo(settled))
      && (active.Some? ==> active.value == |requests| - 1)
      && (active.None? ==> forall i :: 0 <= i < |requests| ==> requests[i].Settled?)
    }

    constructor ()
      ensures Valid() && requests == [] && starts == []
    {
      requests, active, starts := [], None, [];
      new;
      assert UpTo(0);
    }

    /** At most one operation runs, and operations start in the order they were submitted. */
    lemma OneAtATime(i: nat, j: nat)
      requires Valid() && i < |requests| && j < |requests|
      requires requests[i].Running? && requests[j].Running?
      ensures i == j
    {
    }

    lemma InOrder(i: nat)
      requires Valid()
      ensures i < |starts| ==> starts[i] == i
      ensures i < |requests| && !requests[i].Waiting? ==> i < |starts|
    {
      var settled: nat :| UpTo(settled);
    }

    /** Runs the operation at once if nothing is active, and otherwise after what is. */
    method Submit() returns (request: nat)
      requires Valid()
      modifies this
      ensures Valid() && request == |old(requests)| && active == Some(request)
      ensures requests == old(requests) + [if old(active).None? then Running else Waiting]
    {
      ghost var settled: nat :| UpTo(settled);
      request := |requests|;
      if active.None? {
        assert settled == |requests|;
        requests, starts := requests + [Running], starts + [request];
      } else {
        requests := requests + [Waiting];
      }
      active := Some(request);
      StillUpTo(settled);
    }

    lemma StillUpTo(settled: nat)
      requires UpTo(settled)
      ensures exists s :: UpTo(s)
    {
    }

    /** The running operation succeeds or fails. */
    method Settle(request: nat)
      requires Valid() && request < |requests| && requests[request].Running?
      modifies this`requests
      ensures Valid() && requests == old(requests)[request := Settled]
    {
      ghost var settled: nat :| UpTo(settled);
      requests := requests[request := Settled];
      assert UpTo(settled + 1);
    }

    /** The request that waited for a settled one begins. */
    method StartNext(request: nat)
      requires Valid() && 0 < request < |requests| && requests[request].Waiting? && requests[request - 1].Settled?
      modifies this`requests, this`starts
      ensures Valid() && requests == old(requests)[request := Running] && starts == old(starts) + [request]
    {
      ghost var settled: nat :| UpTo(settled);
      requests, starts := requests[request := Running], starts + [request];
      assert UpTo(settled);
    }

    /** A settled request that nobody waits for leaves the gate open. */
    method Clear(request: nat)
      requires Valid() && request < |requests| && requests[request].Settled?
      modifies this`active
      ensures Valid() && active == if old(active) == Some(request) then None else old(active)
    {
      ghost var settled: nat :| UpTo(settled);
      if active == Some(request) {
        active := None;
      }
      assert UpTo(settled);
    }

    /** Whatever is waiting gets its turn: when every operation settles, all of them have run. */
    method Finish()
      requires Valid()
      modifies this
      ensures Valid() && |requests| == |old(requests)| && starts == seq(|requests|, i => i)
      ensures forall i :: 0 <= i < |requests| ==> requests[i].Settled?
    {
      ghost var settled: nat :| UpTo(settled);
      var next := FirstUnsettled();
      while next < |requests|
        invariant Valid() && |requests| == |old(requests)| && UpTo(next)
        decreases |requests| - next
      {
        if requests[next].Waiting? {
          requests, starts := requests[next := Running], starts + [next];
          assert UpTo(next);
        }
        requests := requests[next := Settled];
        next := next + 1;
        assert UpTo(next);
      }
    }

    method FirstUnsettled() returns (next: nat)
      requires Valid()
      ensures UpTo(next)
    {
      ghost var settled: nat :| UpTo(settled);
      next := 0;
      while next < |requests| && requests[next].Settled?
        invariant next <= settled
      {
        next := next + 1;
      }
    }
  }

  // ---------------------------------------------------------------- the coordinator

  datatype Phase = Idle | Refreshing(count: nat, force: bool) | Ending

  /** What has happened: a request, the beginning of a refresh, or the loop's test that found nothing
      counted to refresh for. */
  datatype Event = Requested(count: nat, force: bool) | Began | Tested

  /** The requests since the last refresh began or the loop was last tested. */
  function Latest(history: seq<Event>): seq<Event> {
    if history == [] || !history[|history| - 1].Requested? then []
    else Latest(history[..|history| - 1]) + [history[|history| - 1]]
  }

  function Counted(requests: seq<Event>): nat {
    if requests == [] then 0
    else Counted(requests[..|requests| - 1]) + if requests[|requests| - 1].Requested? then requests[|requests| - 1].count else 0
  }

  predicate Forced(requests: seq<Event>) {
    exists i :: 0 <= i < |requests| && requests[i].Requested? && requests[i].force
  }

  /** The history up to and without the last beginning or test. */
  function Earlier(history: seq<Event>): seq<Event> {
    if history == [] then [] else if history[|history| - 1].Requested? then Earlier(history[..|history| - 1]) else history[..|history| - 1]
  }

  /** The last thing that happened other than requests is the beginning of a refresh. */
  predicate HasBegun(history: seq<Event>) {
    history != [] && if history[|history| - 1].Requested? then HasBegun(history[..|history| - 1]) else history[|history| - 1].Began?
  }

  /** What one more event does to all of this. */
  lemma OneMore(history: seq<Event>, e: Event)
    ensures Latest(history + [e]) == if e.Requested? then Latest(history) + [e] else []
    ensures Earlier(history + [e]) == if e.Requested? then Earlier(history) else history
    ensures HasBegun(history + [e]) == if e.Requested? then HasBegun(history) else e.Began?
    ensures e.Requested? ==> Counted(Latest(history) + [e]) == Counted(Latest(history)) + e.count
    ensures e.Requested? ==> (Forced(Latest(history) + [e]) <==> Forced(Latest(history)) || e.force)
  {
    assert (history + [e])[..|history|] == history;
    var requests := Latest(history);
    assert (requests + [e])[..|requests|] == requests;
    assert e.Requested? ==> (requests + [e])[|requests|] == e && forall i :: 0 <= i < |requests| ==> (requests + [e])[i] == requests[i];
    if Forced(requests) {
      var i :| 0 <= i < |requests| && requests[i].Requested? && requests[i].force;
      assert (requests + [e])[i] == requests[i];
    }
  }

  predicate NoneCounts(requests: seq<Event>) {
    forall i :: 0 <= i < |requests| && requests[i].Requested? ==> requests[i].count == 0
  }

  lemma {:induction false} NothingCounted(requests: seq<Event>)
    ensures Counted(requests) == 0 <==> NoneCounts(requests)
  {
    if requests != [] {
      var front, last := requests[..|requests| - 1], requests[|requests| - 1];
      NothingCounted(front);
      assert forall i :: 0 <= i < |front| ==> front[i] == requests[i];
    }
  }

  class LatestRefreshCoordinator {
    var pendingCount: nat
    var pendingForce: bool
    // inFlight is set from the first request until the loop has ended and its promise is cleared
    var inFlight: bool
    var phase: Phase
    ghost var history: seq<Event>
    ghost var requested: nat
    ghost var passed: nat

    /** What is pending has been requested since the refresh under way began, or since the last test; and
        force may also have been asked for before that test by requests that count nothing. */
    ghost predicate Accounted()
      reads this
    {
      && pendingCount == Counted(Latest(history))
      && (pendingForce <==> Forced(Latest(history)) || (!HasBegun(history) && Forced(Latest(Earlier(history)))))
      && passed + pendingCount == requested
    }

    ghost predicate Valid()
      reads this
    {
      Accounted() && (inFlight <==> !phase.Idle?) && (phase.Refreshing? <==> HasBegun(history))
    }

    constructor ()
      ensures Valid() && phase == Idle && history == [] && requested == 0 && passed == 0
    {
      pendingCount, pendingForce, inFlight, phase := 0, false, false, Idle;
      history, requested, passed := [], 0, 0;
    }

    /** Begins a refresh with everything requested so far. */
    method Begin()
      requires Accounted() && inFlight
      modifies this`pendingCount, this`pendingForce, this`phase, this`passed, this`history
      ensures Valid() && phase == Refreshing(old(pendingCount), old(pendingForce)) && history == old(history) + [Began]
      ensures pendingCount == 0 && passed == requested && !pendingForce
    {
      OneMore(history, Began);
      phase, history := Refreshing(pendingCount, pendingForce), history + [Began];
      passed := passed + pendingCount;
      pendingCount, pendingForce := 0, false;
    }

    /** Joins the refresh loop under way or starts one. */
    method Request(count: nat, force: bool)
      requires Valid()
      modifies this
      ensures Valid() && inFlight && requested == old(requested) + count
      ensures old(inFlight) ==>
        && phase == old(phase) && passed == old(passed) && history == old(history) + [Requested(count, force)]
        && pendingCount == old(pendingCount) + count && pendingForce == (old(pendingForce) || force)
      ensures !old(inFlight) ==>
        && phase == Refreshing(old(pendingCount) + count, old(pendingForce) || force) && passed == requested
        && pendingCount == 0 && !pendingForce
    {
      Add(count, force);
      if inFlight {
        return;
      }
      inFlight := true;
      Begin();
    }

    method Add(count: nat, force: bool)
      requires Accounted()
      modifies this`pendingCount, this`pendingForce, this`requested, this`history
      ensures Accounted() && requested == old(requested) + count && history == old(history) + [Requested(count, force)]
      ensures pendingCount == old(pendingCount) + count && pendingForce == (old(pendingForce) || force)
      ensures HasBegun(history) == HasBegun(old(history))
    {
      OneMore(history, Requested(count, force));
      history := history + [Requested(count, force)];
      pendingCount, pendingForce, requested := pendingCount + count, pendingForce || force, requested + count;
    }

    /** The refresh settles, well or not: another one follows if more was requested meanwhile. */
    method SettleRefresh()
      requires Valid() && phase.Refreshing?
      modifies this`pendingCount, this`pendingForce, this`phase, this`passed, this`history
      ensures Valid() && inFlight
      ensures old(pendingCount) > 0 ==> phase == Refreshing(old(pendingCount), old(pendingForce)) && passed == requested
      ensures old(pendingCount) == 0 ==>
        && phase == Ending && history == old(history) + [Tested]
        && passed == old(passed) && pendingCount == 0 && pendingForce == old(pendingForce)
    {
      if pendingCount > 0 {
        Begin();
      } else {
        OneMore(history, Tested);
        phase, history := Ending, history + [Tested];
      }
    }

    /** The ended loop's promise is cleared. */
    method Clear()
      requires Valid() && phase.Ending?
      modifies this`inFlight, this`phase
      ensures Valid() && phase == Idle && pendingCount == old(pendingCount) && pendingForce == old(pendingForce)
    {
      inFlight, phase := false, Idle;
    }

    /** An idle coordinator owes nothing counted exactly if no request since the loop's last test counts
        anything; and it owes no force exactly if none since then, and none of the last refresh's time,
        asked for it: those that count nothing do not keep the loop going. */
    lemma IdleOwesExactly()
      requires Valid() && !phase.Refreshing?
      ensures pendingCount == 0 <==> NoneCounts(Latest(history))
      ensures !pendingForce <==> !Forced(Latest(history)) && !Forced(Latest(Earlier(history)))
    {
      NothingCounted(Latest(history));
    }
  }

  /** So idle does not mean that nothing is owed: a request that comes after the loop's last test and
      before its promise is cleared waits for the next call. */
  method LateRequestWaits() returns (c: LatestRefreshCoordinator)
    ensures c.Valid() && c.phase == Idle && c.pendingCount == 1 && c.passed == 1 && c.requested == 2
  {
    c := new LatestRefreshCoordinator();
    c.Request(1, false);
    c.SettleRefresh();
    c.Request(1, false);
    c.Clear();
  }

  // ---------------------------------------------------------------- loads that take turns

  type Context = nat

  datatype Disposition = Join | Queue | Supersede

  function OperationsLoadDisposition(activeContext: Context, requestedContext: Context, live: bool, hasPaginationTarget: bool): Disposition {
    if activeContext != requestedContext then Supersede
    else if live || hasPaginationTarget then Queue
    else Join
  }

  datatype Caller = Caller(context: Context, live: bool, hasPaginationTarget: bool, waitingFor: nat, joins: bool)

  datatype Step = Loads(load: nat) | Waits | Returns(loaded: bool)

  /** And a forced request that counts nothing waits even if it comes during the refresh. */
  method UncountedForceWaits() returns (c: LatestRefreshCoordinator)
    ensures c.Valid() && c.phase == Idle && c.pendingForce && c.pendingCount == 0
  {
    c := new LatestRefreshCoordinator();
    c.Request(1, false);
    c.Request(0, true);
    c.SettleRefresh();
    c.Clear();
  }

  /** One load at a time. A caller joins the load under way if it is for the same context, and waits
      for its turn otherwise, giving up when the context has moved on. */
  class OperationsLoader {
    // the load under way, and what is known of those before it
    var loading: Option<nat>
    var contexts: seq<Context>
    var results: map<nat, bool>
    var waiting: map<nat, Caller>
    var superseded: set<nat>

    ghost predicate Valid()
      reads this
    {
      && (forall l :: l in results ==> l < |contexts|)
      && (forall l :: 0 <= l < |contexts| ==> (l in results <==> loading != Some(l)))
      && (loading.Some? ==> loading.value < |contexts|)
      && (forall c :: c in waiting ==> waiting[c].waitingFor < |contexts|)
      && (forall c :: c in waiting && waiting[c].joins ==> contexts[waiting[c].waitingFor] == waiting[c].context)
    }

    constructor ()
      ensures Valid() && loading.None? && contexts == [] && waiting == map[]
    {
      loading, contexts, results, waiting, superseded := None, [], map[], map[], {};
    }

    /** A caller loads at once if nothing is loading, and otherwise waits. */
    method Call(caller: nat, context: Context, live: bool, hasPaginationTarget: bool) returns (step: Step)
      requires Valid()
      modifies this
      ensures Valid() && |contexts| >= |old(contexts)| && !step.Returns?
      ensures step.Loads? <==> old(loading).None?
      ensures step.Loads? ==> step.load == |old(contexts)| && loading == Some(step.load) && contexts == old(contexts) + [context]
      ensures step.Waits? ==>
        && loading == old(loading) && contexts == old(contexts) && caller in waiting
        && waiting[caller].waitingFor == loading.value && waiting[caller].context == context
        && (waiting[caller].joins <==> contexts[loading.value] == context && !live && !hasPaginationTarget)
        && waiting == old(waiting)[caller := waiting[caller]] && waiting[caller].live == live && waiting[caller].hasPaginationTarget == hasPaginationTarget
        && superseded == old(superseded) + if contexts[loading.value] != context then {loading.value} else {}
      ensures step.Loads? ==> waiting == old(waiting) - {caller} && superseded == old(superseded)
      ensures results == old(results)
    {
      if loading.None? {
        waiting := waiting - {caller};
        loading, contexts := Some(|contexts|), contexts + [context];
        return Loads(loading.value);
      }
      var disposition := OperationsLoadDisposition(contexts[loading.value], context, live, hasPaginationTarget);
      if disposition.Supersede? {
        superseded := superseded + {loading.value};
      }
      waiting := waiting[caller := Caller(context, live, hasPaginationTarget, loading.value, disposition.Join?)];
      step := Waits;
    }

    /** The load under way is over. */
    method Settle(loaded: bool)
      requires Valid() && loading.Some?
      modifies this`loading, this`results
      ensures Valid() && loading.None? && results == old(results)[old(loading).value := loaded]
    {
      results := results[loading.value := loaded];
      loading := None;
    }

    /** A waiting caller goes on once its load is over: with that load's result if it joined, which was
        then a load of its own context; with nothing if the context has moved on; else as if it called anew. */
    method Resume(caller: nat, currentContext: Context) returns (step: Step)
      requires Valid() && caller in waiting && waiting[caller].waitingFor in results
      modifies this
      ensures Valid()
      ensures old(waiting)[caller].joins ==>
                step == Returns(old(results)[old(waiting)[caller].waitingFor]) && waiting == old(waiting) - {caller}
                && old(waiting)[caller].waitingFor < |contexts|
                && contexts[old(waiting)[caller].waitingFor] == old(waiting)[caller].context
      ensures !old(waiting)[caller].joins && currentContext != old(waiting)[caller].context ==>
                step == Returns(false) && waiting == old(waiting) - {caller}
      ensures step.Returns? ==> loading == old(loading) && contexts == old(contexts) && superseded == old(superseded)
      ensures results == old(results)
      ensures !old(waiting)[caller].joins && currentContext == old(waiting)[caller].context ==>
                (step.Loads? <==> old(loading).None?) && !step.Returns?
    {
      var c := waiting[caller];
      if c.joins {
        waiting := waiting - {caller};
        return Returns(results[c.waitingFor]);
      }
      if currentContext != c.context {
        waiting := waiting - {caller};
        return Returns(false);
      }
      step := Call(caller, c.context, c.live, c.hasPaginationTarget);
    }
  }
}
