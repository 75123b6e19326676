/** The queue in front of a node: at most so many requests at once, at most so many waiting, first come
    first served. */
module RpcQueue {
  import opened Records

  type Task = nat

  /** What a refused caller is told. */
  datatype Saturation = Saturation(active: nat, pending: nat, maximumPending: nat, highWaterMark: nat, saturationCount: nat)

  predicate Distinct(tasks: seq<Task>) {
    forall i, j :: 0 <= i < j < |tasks| ==> tasks[i] != tasks[j]
  }

  function AsSet(tasks: seq<Task>): set<Task> {
    set i | 0 <= i < |tasks| :: tasks[i]
  }

  lemma {:induction false} DistinctCount(tasks: seq<Task>)
    requires Distinct(tasks)
    ensures |AsSet(tasks)| == |tasks|
  {
    if tasks != [] {
      var front, last := tasks[..|tasks| - 1], tasks[|tasks| - 1];
      assert forall i :: 0 <= i < |front| ==> front[i] == tasks[i];
      DistinctCount(front);
      assert AsSet(tasks) == AsSet(front) + {last};
    }
  }

  class RpcRequestQueue {
    const concurrency: nat
    const maximumPending: nat
    var active: nat
    var highWaterMark: nat
    var saturationCount: nat
    var pending: seq<Task>
    // every admitted task in order of admission, those started in order of their start, those done
    ghost var admitted: seq<Task>
    ghost var started: seq<Task>
    ghost var finished: set<Task>
    ghost var submitted: nat

    /** What holds at any time, even while waiting tasks are being started. */
    ghost predicate Consistent()
      reads this
    {
      && concurrency >= 1
      && active <= concurrency
      && admitted == started + pending && Distinct(admitted)
      && finished <= AsSet(started) && active == |AsSet(started) - finished|
      && submitted == saturationCount + |admitted|
      && highWaterMark <= maximumPending
    }

    /** What holds between calls: a free slot means that nobody waits. */
    ghost predicate Valid()
      reads this
    {
      && Consistent()
      && |pending| <= maximumPending
      && (active < concurrency ==> pending == [])
      && |pending| <= highWaterMark
    }

    constructor (concurrency: nat, maximumPending: nat)
      requires concurrency >= 1
      ensures Valid() && this.concurrency == concurrency && this.maximumPending == maximumPending
      ensures admitted == [] && submitted == 0
    {
      this.concurrency, this.maximumPending := concurrency, maximumPending;
      active, highWaterMark, saturationCount, pending := 0, 0, 0, [];
      admitted, started, finished, submitted := [], [], {}, 0;
    }

    /** Everything submitted was refused, waits, runs, or is done. */
    lemma Conserved()
      requires Consistent()
      ensures submitted == saturationCount + |pending| + active + |finished|
      ensures |AsSet(started)| == |started| == active + |finished|
    {
      assert Distinct(started) by {
        assert forall i :: 0 <= i < |started| ==> started[i] == admitted[i];
      }
      DistinctCount(started);
      assert AsSet(started) == (AsSet(started) - finished) + finished;
    }

    /** Starts waiting tasks, the longest waiting first, while there is a free slot. */
    method Drain()
      requires Consistent()
      modifies this`active, this`pending, this`started
      ensures Consistent()
      ensures started <= admitted && old(started) <= started
      ensures active < concurrency ==> pending == []
      ensures old(active) + |old(pending)| == active + |pending| && |pending| <= |old(pending)|
      ensures old(active) < concurrency && old(pending) != [] ==> |pending| < |old(pending)|
      ensures old(active) >= concurrency ==> pending == old(pending)
    {
      while active < concurrency && pending != []
        invariant Consistent() && old(started) <= started
        invariant old(active) + |old(pending)| == active + |pending| && |pending| <= |old(pending)|
        invariant old(active) >= concurrency ==> pending == old(pending)
        invariant |pending| < |old(pending)| || (active == old(active) && pending == old(pending))
        decreases |pending|
      {
        var task := pending[0];
        NextStarts(admitted, started, pending, finished);
        active, pending, started := active + 1, pending[1..], started + [task];
      }
    }

    /** Admits a task and starts it if there is a free slot, or refuses it when all slots are taken and
        as many as allowed are waiting. */
    method Run(task: Task) returns (refusal: Option<Saturation>)
      requires Valid() && task !in AsSet(admitted)
      modifies this
      ensures Valid() && submitted == old(submitted) + 1 && finished == old(finished)
      ensures refusal.Some? <==> old(active) >= concurrency && |old(pending)| >= maximumPending
      ensures refusal.Some? ==> admitted == old(admitted) && started == old(started) && pending == old(pending)
      ensures refusal.Some? ==> refusal.value == Saturation(active, |pending|, maximumPending, highWaterMark, saturationCount)
      ensures refusal.None? ==> admitted == old(admitted) + [task] && old(started) <= started
      ensures refusal.None? && old(active) < concurrency ==> started == admitted
    {
      submitted := submitted + 1;
      if active >= concurrency && |pending| >= maximumPending {
        saturationCount := saturationCount + 1;
        return Some(Saturation(active, |pending|, maximumPending, highWaterMark, saturationCount));
      }
      Admitted(admitted, task);
      pending, admitted := pending + [task], admitted + [task];
      assert admitted == started + pending;
      Drain();
      highWaterMark := Max(highWaterMark, |pending|);
      refusal := None;
    }

    /** A running task settles; its slot goes to the next in line. */
    method Settle(ghost task: Task)
      requires Valid() && task in AsSet(started) - finished
      modifies this`active, this`pending, this`started, this`finished
      ensures Valid() && finished == old(finished) + {task}
      ensures old(started) <= started <= admitted
      ensures old(pending) != [] ==> |started| == |old(started)| + 1
      ensures active + |pending| == old(active) + |old(pending)| - 1
    {
      Freed(started, finished, task);
      active, finished := active - 1, finished + {task};
      Drain();
    }

    /** Whichever running task settles next: once all have settled, every admitted task has had its turn. */
    method SettleAll()
      requires Valid()
      modifies this`active, this`pending, this`started, this`finished
      ensures Valid() && pending == [] && active == 0
      ensures started == admitted && finished == AsSet(admitted)
    {
      while active > 0
        invariant Valid()
        decreases active + |pending|
      {
        ghost var task := SomeRunning();
        Settle(task);
      }
      NoneRunning(started, finished);
    }

    ghost method SomeRunning() returns (task: Task)
      requires Consistent() && active > 0
      ensures task in AsSet(started) - finished
    {
      task :| task in AsSet(started) - finished;
    }
  }

  lemma Admitted(admitted: seq<Task>, task: Task)
    requires Distinct(admitted) && task !in AsSet(admitted)
    ensures Distinct(admitted + [task])
  {
  }

  lemma NextStarts(admitted: seq<Task>, started: seq<Task>, pending: seq<Task>, finished: set<Task>)
    requires admitted == started + pending && pending != [] && Distinct(admitted) && finished <= AsSet(started)
    ensures admitted == (started + [pending[0]]) + pending[1..]
    ensures AsSet(started + [pending[0]]) == AsSet(started) + {pending[0]} && pending[0] !in AsSet(started)
    ensures |AsSet(started + [pending[0]]) - finished| == |AsSet(started) - finished| + 1
  {
    var more := started + [pending[0]];
    assert forall i :: 0 <= i < |started| ==> more[i] == started[i] && started[i] == admitted[i];
    assert more[|started|] == pending[0] && admitted[|started|] == pending[0];
    assert AsSet(more) == AsSet(started) + {pending[0]};
    assert AsSet(more) - finished == (AsSet(started) - finished) + {pending[0]};
  }

  lemma NoneRunning(started: seq<Task>, finished: set<Task>)
    requires finished <= AsSet(started) && |AsSet(started) - finished| == 0
    ensures finished == AsSet(started)
  {
  }

  lemma Freed(started: seq<Task>, finished: set<Task>, task: Task)
    requires task in AsSet(started) - finished
    ensures |AsSet(started) - (finished + {task})| == |AsSet(started) - finished| - 1
  {
    assert AsSet(started) - (finished + {task}) == (AsSet(started) - finished) - {task};
  }
}
