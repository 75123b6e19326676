/** Write transactions fenced by an advisory lock: replicas acquire leases through connections that a
    pooler may move between backends, backends die, and a transaction only goes on if, inside it, its
    backend is the lease's and holds the chain's lock. */
module Lease {
  import opened Records

  type Backend = nat
  type Connection = nat
  type LeaseId = nat
  type OperationId = nat
  type TransactionId = nat

  /** The session lock of the chain; one backend may hold it several times over. */
  datatype Lock = Free | Held(holder: Backend, depth: nat)

  datatype LeaseRow = LeaseRow(backend: Backend, connection: Connection, released: bool)

  datatype Status = Waiting | Running | Settled

  /** An operation submitted on a lease; it waits for the one that was the lease's last when it came, if
      there was one. */
  datatype Operation = Operation(lease: LeaseId, previous: Option<OperationId>, status: Status)

  datatype Phase = Begun | Fenced | Committed | Aborted

  datatype Transaction = Transaction(lease: LeaseId, operation: OperationId, backend: Backend, phase: Phase)

  datatype LeaseError = LeaseReleased | BackendMoved | LockNotHeld

  /** How giving a lease up went; all but the first two throw. */
  datatype ReleaseOutcome = AlreadyReleased | Unlocked | ConnectionLost | ReleaseMoved | UnlockFailed

  predicate Open(t: Transaction) {
    t.phase.Begun? || t.phase.Fenced?
  }

  // ---------------------------------------------------------------- the invariant

  /** The unreleased leases of a backend. */
  function Relying(leases: map<LeaseId, LeaseRow>, b: Backend): set<LeaseId> {
    set l | l in leases && !leases[l].released && leases[l].backend == b
  }

  /** A live backend with unreleased leases holds the lock, at least once for each of them. */
  ghost predicate LockCounts(leases: map<LeaseId, LeaseRow>, alive: set<Backend>, lock: Lock) {
    && (lock.Held? ==> lock.depth >= 1)
    && forall b {:trigger Relying(leases, b)} :: b in alive && Relying(leases, b) != {} ==>
         lock.Held? && lock.holder == b && |Relying(leases, b)| <= lock.depth
  }

  ghost predicate LeasesOk(leases: map<LeaseId, LeaseRow>, nextLease: LeaseId, nextBackend: Backend) {
    forall l :: l in leases ==> l < nextLease && leases[l].backend < nextBackend
  }

  /** Everything submitted before `i` on the same lease is over. */
  predicate AllSettledBefore(operations: seq<Operation>, i: OperationId)
    requires i < |operations|
  {
    forall j :: 0 <= j < i && operations[j].lease == operations[i].lease ==> operations[j].status.Settled?
  }

  /** The operation an operation waits for is the one submitted right before it on the same lease. One
      that waits for nothing came when nothing was left to wait for, and none has begun out of turn. */
  predicate OperationOk(operations: seq<Operation>, i: OperationId)
    requires i < |operations|
  {
    var o := operations[i];
    && (o.previous.Some? ==>
          && o.previous.value < i && operations[o.previous.value].lease == o.lease
          && forall j :: o.previous.value < j < i ==> operations[j].lease != o.lease)
    && (o.previous.None? || !o.status.Waiting? ==> AllSettledBefore(operations, i))
  }

  ghost predicate OperationsOk(operations: seq<Operation>, leases: map<LeaseId, LeaseRow>) {
    forall i {:trigger OperationOk(operations, i)} :: 0 <= i < |operations| ==>
      OperationOk(operations, i) && operations[i].lease in leases
  }

  /** The tail kept for a lease is its last operation; a lease without one has nothing left to do. */
  ghost predicate TailsOk(operations: seq<Operation>, tails: map<LeaseId, OperationId>) {
    && (forall l :: l in tails ==>
          && tails[l] < |operations| && operations[tails[l]].lease == l
          && forall j :: tails[l] < j < |operations| ==> operations[j].lease != l)
    && (forall i :: 0 <= i < |operations| && operations[i].lease !in tails ==> operations[i].status.Settled?)
  }

  /** A transaction belongs to an operation that has begun, and is only open while that is running. */
  predicate TransactionOk(t: Transaction, leases: map<LeaseId, LeaseRow>, operations: seq<Operation>, alive: set<Backend>) {
    && t.lease in leases && t.operation < |operations| && operations[t.operation].lease == t.lease
    && !operations[t.operation].status.Waiting?
    && (Open(t) ==> t.backend in alive && operations[t.operation].status.Running?)
    && (t.phase.Fenced? || t.phase.Committed? ==> leases[t.lease].backend == t.backend)
  }

  ghost predicate TransactionsOk(transactions: seq<Transaction>, leases: map<LeaseId, LeaseRow>, operations: seq<Operation>, alive: set<Backend>) {
    forall t :: 0 <= t < |transactions| ==> TransactionOk(transactions[t], leases, operations, alive)
  }

  /** A backend runs one transaction at a time, and so does a lease, in order of submission. */
  ghost predicate OneByOne(transactions: seq<Transaction>) {
    && (forall s, t :: 0 <= s < t < |transactions| && Open(transactions[s]) && Open(transactions[t]) ==>
          transactions[s].backend != transactions[t].backend)
    && (forall s, t :: 0 <= s < t < |transactions| && transactions[s].lease == transactions[t].lease ==>
          transactions[s].operation < transactions[t].operation)
  }

  /** What the check inside a transaction saw. */
  datatype Observation = Observation(backend: Backend, lock: Lock, released: bool)

  ghost predicate Checked(transactions: seq<Transaction>, checks: map<TransactionId, Observation>) {
    forall t :: 0 <= t < |transactions| && (transactions[t].phase.Fenced? || transactions[t].phase.Committed?) ==>
      && t in checks && !checks[t].released && checks[t].backend == transactions[t].backend
      && checks[t].lock.Held? && checks[t].lock.holder == transactions[t].backend
  }

  // ---------------------------------------------------------------- the world

  class LeaseWorld {
    var alive: set<Backend>
    var nextBackend: Backend
    var lock: Lock
    // the backend a pooler serves a connection with at the moment
    var routes: map<Connection, Backend>
    var leases: map<LeaseId, LeaseRow>
    var nextLease: LeaseId
    // every operation submitted, and the last one of each lease until it is cleared
    var operations: seq<Operation>
    var tails: map<LeaseId, OperationId>
    var transactions: seq<Transaction>
    ghost var checks: map<TransactionId, Observation>

    ghost predicate Valid()
      reads this
    {
      && (forall b :: b in alive ==> b < nextBackend)
      && LockCounts(leases, alive, lock)
      && LeasesOk(leases, nextLease, nextBackend)
      && OperationsOk(operations, leases)
      && TailsOk(operations, tails)
      && TransactionsOk(transactions, leases, operations, alive)
      && OneByOne(transactions)
      && Checked(transactions, checks)
    }

    constructor ()
      ensures Valid() && leases == map[] && operations == [] && transactions == [] && lock.Free?
    {
      alive, nextBackend, lock, routes, leases, nextLease := {}, 0, Free, map[], map[], 0;
      operations, tails, transactions, checks := [], map[], [], map[];
      new;
      assert forall b :: Relying(leases, b) == {};
    }

    // -------------------------------------------------------------- the database's own moves

    method StartBackend() returns (b: Backend)
      requires Valid()
      modifies this`alive, this`nextBackend
      ensures Valid() && b == old(nextBackend) && alive == old(alive) + {b}
    {
      b := nextBackend;
      NobodyRelies(leases, nextLease, nextBackend, b);
      StillCounts(leases, alive, lock, alive + {b});
      alive, nextBackend := alive + {b}, b + 1;
    }

    method Route(c: Connection, b: Backend)
      requires Valid()
      modifies this`routes
      ensures Valid() && routes == old(routes)[c := b]
    {
      routes := routes[c := b];
    }

    /** A session is lost: its lock is free, and its open transaction is rolled back. */
    method BackendDies(b: Backend)
      requires Valid() && b in alive
      modifies this`alive, this`lock, this`transactions
      ensures Valid() && alive == old(alive) - {b}
      ensures lock == if old(lock).Held? && old(lock).holder == b then Free else old(lock)
      ensures transactions == RolledBack(old(transactions), b)
    {
      LockSurvives(leases, alive, lock, b);
      RollbackOk(transactions, leases, operations, alive, checks, b);
      alive, transactions := alive - {b}, RolledBack(transactions, b);
      lock := if lock.Held? && lock.holder == b then Free else lock;
    }

    // -------------------------------------------------------------- acquiring and releasing

    /** Tries the lock on whatever backend serves the connection. */
    method TryAcquire(c: Connection) returns (lease: Option<LeaseId>)
      requires Valid()
      modifies this`lock, this`leases, this`nextLease
      ensures Valid()
      ensures lease.Some? <==> c in routes && routes[c] in alive && (old(lock).Free? || old(lock).holder == routes[c])
      ensures lease.None? ==> lock == old(lock) && leases == old(leases)
      ensures lease.Some? ==>
        && lease.value !in old(leases) && leases == old(leases)[lease.value := LeaseRow(routes[c], c, false)]
        && lock == Held(routes[c], if old(lock).Held? then old(lock).depth + 1 else 1)
    {
      if c !in routes || routes[c] !in alive || (lock.Held? && lock.holder != routes[c]) {
        return None;
      }
      AcquireCounts(leases, nextLease, nextBackend, alive, lock, routes[c], c);
      MoreLeases(transactions, leases, operations, alive, nextLease, LeaseRow(routes[c], c, false));
      lock := Held(routes[c], if lock.Held? then lock.depth + 1 else 1);
      leases := leases[nextLease := LeaseRow(routes[c], c, false)];
      lease := Some(nextLease);
      nextLease := nextLease + 1;
    }

    /** Gives the lease up. Whatever else happens, it counts as released; the lock is given up once, and
        exactly if the connection is still served by the backend that took it and that still holds it. */
    method Release(l: LeaseId) returns (outcome: ReleaseOutcome)
      requires Valid() && l in leases
      modifies this`lock, this`leases
      ensures Valid() && leases == old(leases)[l := old(leases)[l].(released := true)]
      ensures var row := old(leases)[l];
              var serves := row.connection in routes && routes[row.connection] in alive;
              && (outcome.AlreadyReleased? <==> row.released)
              && (outcome.ConnectionLost? <==> !row.released && !serves)
              && (outcome.ReleaseMoved? <==> !row.released && serves && routes[row.connection] != row.backend)
              && (outcome.Unlocked? <==> !row.released && serves && routes[row.connection] == row.backend
                                         && old(lock).Held? && old(lock).holder == row.backend)
      ensures outcome.Unlocked? && old(lock).depth == 1 ==> lock == Free
      ensures outcome.Unlocked? && old(lock).depth > 1 ==> lock == old(lock).(depth := old(lock).depth - 1)
      ensures !outcome.Unlocked? ==> lock == old(lock)
    {
      var row := leases[l];
      if row.released {
        assert leases == leases[l := row.(released := true)];
        return AlreadyReleased;
      }
      outcome := if row.connection !in routes || routes[row.connection] !in alive then ConnectionLost
                 else if routes[row.connection] != row.backend then ReleaseMoved
                 else if lock.Held? && lock.holder == row.backend then Unlocked
                 else UnlockFailed;
      ReleaseCounts(leases, alive, lock, l, outcome.Unlocked?);
      SameLeases(transactions, leases, operations, alive, l, row.(released := true));
      leases := leases[l := row.(released := true)];
      if outcome.Unlocked? {
        lock := if lock.depth == 1 then Free else Held(lock.holder, lock.depth - 1);
      }
    }

    // -------------------------------------------------------------- transactions

    /** Queues an operation behind the lease's last one. */
    method Submit(l: LeaseId) returns (operation: OperationId)
      requires Valid() && l in leases
      modifies this`operations, this`tails
      ensures Valid() && operation == |old(operations)| && tails == old(tails)[l := operation]
      ensures operations == old(operations) + [Operation(l, if l in old(tails) then Some(old(tails)[l]) else None, Waiting)]
    {
      operation := |operations|;
      var previous := if l in tails then Some(tails[l]) else None;
      SubmitOk(operations, tails, leases, Operation(l, previous, Waiting));
      MoreOperations(transactions, leases, operations, alive, Operation(l, previous, Waiting));
      operations := operations + [Operation(l, previous, Waiting)];
      tails := tails[l := operation];
    }

    /** What an operation waited for is over, so it opens its transaction, on whatever backend serves the
        connection. */
    method Begin(o: OperationId)
      requires Valid() && CanBegin(operations, o) && operations[o].lease in leases
      requires var c := leases[operations[o].lease].connection;
               && c in routes && routes[c] in alive
               && forall t :: 0 <= t < |transactions| && Open(transactions[t]) ==> transactions[t].backend != routes[c]
      modifies this`operations, this`transactions
      ensures Valid() && operations == old(operations)[o := old(operations)[o].(status := Running)]
      ensures var l := old(operations)[o].lease;
              transactions == old(transactions) + [Transaction(l, o, routes[leases[l].connection], Begun)]
    {
      var l := operations[o].lease;
      BeginOk(operations, tails, leases, o);
      BeginsInOrder(transactions, leases, operations, alive, o);
      transactions := transactions + [Transaction(l, o, routes[leases[l].connection], Begun)];
      operations := operations[o := operations[o].(status := Running)];
    }

    /** The connection is gone, so the operation fails before it has a transaction. */
    method BeginFails(o: OperationId)
      requires Valid() && CanBegin(operations, o)
      modifies this`operations
      ensures Valid() && operations == old(operations)[o := old(operations)[o].(status := Settled)]
    {
      BeginOk(operations, tails, leases, o);
      BeginsInOrder(transactions, leases, operations, alive, o);
      var running := operations[o := operations[o].(status := Running)];
      SettleOk(running, tails, leases, o);
      SettledTransactions(transactions, leases, running, alive, o);
      assert running[o := running[o].(status := Settled)] == operations[o := operations[o].(status := Settled)];
      operations := operations[o := operations[o].(status := Settled)];
    }

    /** The check inside the transaction: the lease is not released, its backend is the transaction's,
        and that backend holds the lock. Otherwise the transaction throws and rolls back. */
    method AssertHeld(t: TransactionId) returns (error: Option<LeaseError>)
      requires Valid() && t < |transactions| && transactions[t].phase.Begun?
      modifies this`transactions, this`checks
      ensures Valid()
      ensures error.None? <==>
                var row := leases[old(transactions)[t].lease];
                !row.released && row.backend == old(transactions)[t].backend && lock.Held? && lock.holder == row.backend
      ensures error == Some(LeaseReleased) <==> leases[old(transactions)[t].lease].released
      ensures error == Some(BackendMoved) <==>
                var row := leases[old(transactions)[t].lease]; !row.released && row.backend != old(transactions)[t].backend
      ensures checks == old(checks)[t := Observation(old(transactions)[t].backend, lock, leases[old(transactions)[t].lease].released)]
      ensures transactions == old(transactions)[t := old(transactions)[t].(phase := if error.None? then Fenced else Aborted)]
    {
      var row := leases[transactions[t].lease];
      error := if row.released then Some(LeaseReleased)
               else if row.backend != transactions[t].backend then Some(BackendMoved)
               else if !(lock.Held? && lock.holder == row.backend) then Some(LockNotHeld)
               else None;
      PhaseOk(transactions, leases, operations, alive, t, if error.None? then Fenced else Aborted);
      checks := checks[t := Observation(transactions[t].backend, lock, row.released)];
      transactions := transactions[t := transactions[t].(phase := if error.None? then Fenced else Aborted)];
    }

    /** Only a transaction that passed the check commits. */
    method Commit(t: TransactionId)
      requires Valid() && t < |transactions| && transactions[t].phase.Fenced?
      modifies this`transactions
      ensures Valid() && transactions == old(transactions)[t := old(transactions)[t].(phase := Committed)]
    {
      PhaseOk(transactions, leases, operations, alive, t, Committed);
      transactions := transactions[t := transactions[t].(phase := Committed)];
    }

    method Abort(t: TransactionId)
      requires Valid() && t < |transactions| && Open(transactions[t])
      modifies this`transactions
      ensures Valid() && transactions == old(transactions)[t := old(transactions)[t].(phase := Aborted)]
    {
      PhaseOk(transactions, leases, operations, alive, t, Aborted);
      transactions := transactions[t := transactions[t].(phase := Aborted)];
    }

    /** An operation is over, well or not. */
    method Settle(o: OperationId)
      requires Valid() && o < |operations| && operations[o].status.Running?
      requires forall t :: 0 <= t < |transactions| && transactions[t].operation == o ==> !Open(transactions[t])
      modifies this`operations
      ensures Valid() && operations == old(operations)[o := old(operations)[o].(status := Settled)]
    {
      SettleOk(operations, tails, leases, o);
      SettledTransactions(transactions, leases, operations, alive, o);
      operations := operations[o := operations[o].(status := Settled)];
    }

    /** A settled operation forgets the tail, if it still is the tail. */
    method Clear(o: OperationId)
      requires Valid() && o < |operations| && operations[o].status.Settled?
      modifies this`tails
      ensures Valid()
      ensures var l := operations[o].lease;
              tails == if l in old(tails) && old(tails)[l] == o then old(tails) - {l} else old(tails)
    {
      var l := operations[o].lease;
      if l in tails && tails[l] == o {
        ClearOk(operations, tails, leases, o);
        tails := tails - {l};
      }
    }

    // -------------------------------------------------------------- what it adds up to

    /** Whatever the replicas, the pooler and the crashes do: a committed transaction's backend held the
        lock, for an unreleased lease, at the check inside it. */
    lemma CommittedWasFenced(t: TransactionId)
      requires Valid() && t < |transactions| && transactions[t].phase.Committed?
      ensures t in checks && !checks[t].released
      ensures checks[t].lock.Held? && checks[t].lock.holder == transactions[t].backend
      ensures transactions[t].lease in leases && leases[transactions[t].lease].backend == transactions[t].backend
    {
      assert TransactionOk(transactions[t], leases, operations, alive);
    }

    /** Of the transactions past the check whose leases are not released, at most one is open. */
    lemma OneWriter(s: TransactionId, t: TransactionId)
      requires Valid() && s < |transactions| && t < |transactions|
      requires transactions[s].phase.Fenced? && !leases[transactions[s].lease].released
      requires transactions[t].phase.Fenced? && !leases[transactions[t].lease].released
      ensures s == t
    {
      FencedHolds(transactions, leases, operations, alive, lock, s);
      FencedHolds(transactions, leases, operations, alive, lock, t);
    }

    /** The operations of a lease run one at a time, in order of submission, although each knows only the
        one that was the tail when it came. */
    lemma Serialized(i: OperationId, j: OperationId)
      requires Valid() && i < j < |operations| && operations[i].lease == operations[j].lease
      ensures !operations[j].status.Waiting? ==> operations[i].status.Settled?
      ensures operations[i].status.Running? ==> operations[j].status.Waiting?
    {
      assert OperationOk(operations, j);
    }

    /** So the transactions of one lease are opened in that order, each after the one before is over. */
    lemma InSubmissionOrder(s: TransactionId, t: TransactionId)
      requires Valid() && s < t < |transactions| && transactions[s].lease == transactions[t].lease
      ensures transactions[s].operation < transactions[t].operation && !Open(transactions[s])
    {
      assert TransactionOk(transactions[s], leases, operations, alive) && TransactionOk(transactions[t], leases, operations, alive);
      Serialized(transactions[s].operation, transactions[t].operation);
    }

    /** And none waits for ever: as long as one is not over, one up to it runs or can begin. */
    lemma NeverStuck(o: OperationId) returns (first: OperationId)
      requires Valid() && o < |operations| && !operations[o].status.Settled?
      ensures first <= o && operations[first].lease == operations[o].lease
      ensures operations[first].status.Running? || CanBegin(operations, first)
      decreases o
    {
      assert OperationOk(operations, o);
      if operations[o].status.Running? || CanBegin(operations, o) {
        first := o;
      } else {
        first := NeverStuck(operations[o].previous.value);
      }
    }
  }

  // ---------------------------------------------------------------- operations

  predicate CanBegin(operations: seq<Operation>, o: OperationId) {
    && o < |operations| && operations[o].status.Waiting?
    && (operations[o].previous.Some? ==>
          operations[o].previous.value < |operations| && operations[operations[o].previous.value].status.Settled?)
  }

  lemma SubmitOk(operations: seq<Operation>, tails: map<LeaseId, OperationId>, leases: map<LeaseId, LeaseRow>, o: Operation)
    requires OperationsOk(operations, leases) && TailsOk(operations, tails)
    requires o.lease in leases && o.status.Waiting? && o.previous == if o.lease in tails then Some(tails[o.lease]) else None
    ensures OperationsOk(operations + [o], leases) && TailsOk(operations + [o], tails[o.lease := |operations|])
  {
    var more := operations + [o];
    forall i | 0 <= i < |more|
      ensures OperationOk(more, i) && more[i].lease in leases
    {
      if i < |operations| {
        assert OperationOk(operations, i);
      }
    }
  }

  /** What comes before an operation that can begin is over. */
  lemma CanBeginInTurn(operations: seq<Operation>, leases: map<LeaseId, LeaseRow>, o: OperationId)
    requires OperationsOk(operations, leases) && CanBegin(operations, o)
    ensures AllSettledBefore(operations, o)
  {
    assert OperationOk(operations, o);
    if operations[o].previous.Some? {
      assert OperationOk(operations, operations[o].previous.value);
    }
  }

  lemma BeginOk(operations: seq<Operation>, tails: map<LeaseId, OperationId>, leases: map<LeaseId, LeaseRow>, o: OperationId)
    requires OperationsOk(operations, leases) && TailsOk(operations, tails) && CanBegin(operations, o)
    ensures var after := operations[o := operations[o].(status := Running)];
            OperationsOk(after, leases) && TailsOk(after, tails)
  {
    var after := operations[o := operations[o].(status := Running)];
    CanBeginInTurn(operations, leases, o);
    forall i | 0 <= i < |after|
      ensures OperationOk(after, i) && after[i].lease in leases
    {
      assert OperationOk(operations, i);
    }
  }

  lemma SettleOk(operations: seq<Operation>, tails: map<LeaseId, OperationId>, leases: map<LeaseId, LeaseRow>, o: OperationId)
    requires OperationsOk(operations, leases) && TailsOk(operations, tails)
    requires o < |operations| && operations[o].status.Running?
    ensures var after := operations[o := operations[o].(status := Settled)];
            OperationsOk(after, leases) && TailsOk(after, tails)
  {
    var after := operations[o := operations[o].(status := Settled)];
    forall i | 0 <= i < |after|
      ensures OperationOk(after, i) && after[i].lease in leases
    {
      assert OperationOk(operations, i);
    }
  }

  /** When the tail is over, everything on its lease is. */
  lemma ClearOk(operations: seq<Operation>, tails: map<LeaseId, OperationId>, leases: map<LeaseId, LeaseRow>, o: OperationId)
    requires OperationsOk(operations, leases) && TailsOk(operations, tails)
    requires o < |operations| && operations[o].status.Settled?
    requires operations[o].lease in tails && tails[operations[o].lease] == o
    ensures TailsOk(operations, tails - {operations[o].lease})
  {
    assert OperationOk(operations, o);
    forall i | 0 <= i < |operations| && operations[i].lease == operations[o].lease
      ensures operations[i].status.Settled?
    {
      assert i <= o;
    }
  }

  lemma MoreOperations(transactions: seq<Transaction>, leases: map<LeaseId, LeaseRow>, operations: seq<Operation>, alive: set<Backend>, o: Operation)
    requires TransactionsOk(transactions, leases, operations, alive)
    ensures TransactionsOk(transactions, leases, operations + [o], alive)
  {
    forall t | 0 <= t < |transactions|
      ensures TransactionOk(transactions[t], leases, operations + [o], alive)
    {
      assert TransactionOk(transactions[t], leases, operations, alive);
    }
  }

  /** The transactions opened so far on the lease belong to operations that are over. */
  lemma BeginsInOrder(transactions: seq<Transaction>, leases: map<LeaseId, LeaseRow>, operations: seq<Operation>, alive: set<Backend>, o: OperationId)
    requires TransactionsOk(transactions, leases, operations, alive) && OperationsOk(operations, leases) && CanBegin(operations, o)
    ensures TransactionsOk(transactions, leases, operations[o := operations[o].(status := Running)], alive)
    ensures forall t :: 0 <= t < |transactions| && transactions[t].lease == operations[o].lease ==> transactions[t].operation < o
  {
    forall t | 0 <= t < |transactions|
      ensures TransactionOk(transactions[t], leases, operations[o := operations[o].(status := Running)], alive)
      ensures transactions[t].lease == operations[o].lease ==> transactions[t].operation < o
    {
      assert TransactionOk(transactions[t], leases, operations, alive);
      assert OperationOk(operations, transactions[t].operation);
    }
  }

  lemma SettledTransactions(transactions: seq<Transaction>, leases: map<LeaseId, LeaseRow>, operations: seq<Operation>, alive: set<Backend>, o: OperationId)
    requires TransactionsOk(transactions, leases, operations, alive) && o < |operations| && operations[o].status.Running?
    requires forall t :: 0 <= t < |transactions| && transactions[t].operation == o ==> !Open(transactions[t])
    ensures TransactionsOk(transactions, leases, operations[o := operations[o].(status := Settled)], alive)
  {
    forall t | 0 <= t < |transactions|
      ensures TransactionOk(transactions[t], leases, operations[o := operations[o].(status := Settled)], alive)
    {
      assert TransactionOk(transactions[t], leases, operations, alive);
    }
  }

  // ---------------------------------------------------------------- counting

  lemma NobodyRelies(leases: map<LeaseId, LeaseRow>, nextLease: LeaseId, nextBackend: Backend, b: Backend)
    requires LeasesOk(leases, nextLease, nextBackend) && b >= nextBackend
    ensures Relying(leases, b) == {}
  {
  }

  lemma StillCounts(leases: map<LeaseId, LeaseRow>, alive: set<Backend>, lock: Lock, more: set<Backend>)
    requires LockCounts(leases, alive, lock)
    requires forall b :: b in more && b !in alive ==> Relying(leases, b) == {}
    ensures LockCounts(leases, more, lock)
  {
  }

  lemma LockSurvives(leases: map<LeaseId, LeaseRow>, alive: set<Backend>, lock: Lock, b: Backend)
    requires LockCounts(leases, alive, lock)
    ensures LockCounts(leases, alive - {b}, if lock.Held? && lock.holder == b then Free else lock)
  {
    forall d | d in alive - {b} && Relying(leases, d) != {}
      ensures lock.Held? && lock.holder == d && |Relying(leases, d)| <= lock.depth
    {
    }
  }

  lemma AcquireCounts(leases: map<LeaseId, LeaseRow>, nextLease: LeaseId, nextBackend: Backend, alive: set<Backend>, lock: Lock, b: Backend, c: Connection)
    requires LockCounts(leases, alive, lock) && LeasesOk(leases, nextLease, nextBackend) && b in alive
    requires lock.Held? ==> lock.holder == b
    ensures LockCounts(leases[nextLease := LeaseRow(b, c, false)], alive, Held(b, if lock.Held? then lock.depth + 1 else 1))
  {
    var more := leases[nextLease := LeaseRow(b, c, false)];
    var depth := if lock.Held? then lock.depth + 1 else 1;
    forall d | d in alive && Relying(more, d) != {}
      ensures b == d && |Relying(more, d)| <= depth
    {
      assert d != b ==> Relying(more, d) == Relying(leases, d);
      if d == b {
        assert Relying(more, b) == Relying(leases, b) + {nextLease};
        assert nextLease !in Relying(leases, b);
      }
    }
  }

  lemma ReleaseCounts(leases: map<LeaseId, LeaseRow>, alive: set<Backend>, lock: Lock, l: LeaseId, unlocked: bool)
    requires LockCounts(leases, alive, lock) && l in leases && !leases[l].released
    requires unlocked ==> leases[l].backend in alive && lock.Held? && lock.holder == leases[l].backend
    ensures LockCounts(leases[l := leases[l].(released := true)], alive,
                       if !unlocked then lock else if lock.depth == 1 then Free else Held(lock.holder, lock.depth - 1))
  {
    var b := leases[l].backend;
    var fewer := leases[l := leases[l].(released := true)];
    assert l in Relying(leases, b);
    assert Relying(fewer, b) == Relying(leases, b) - {l};
    forall d | d != b
      ensures Relying(fewer, d) == Relying(leases, d)
    {
    }
    if unlocked && lock.depth == 1 {
      assert |Relying(fewer, b)| == 0;
    }
  }

  // ---------------------------------------------------------------- transactions

  function RolledBack(transactions: seq<Transaction>, b: Backend): (after: seq<Transaction>)
    ensures |after| == |transactions|
    ensures forall t :: 0 <= t < |transactions| ==>
              after[t] == if transactions[t].backend == b && Open(transactions[t]) then transactions[t].(phase := Aborted) else transactions[t]
  {
    seq(|transactions|, t requires 0 <= t < |transactions| =>
      if transactions[t].backend == b && Open(transactions[t]) then transactions[t].(phase := Aborted) else transactions[t])
  }

  lemma RollbackOk(transactions: seq<Transaction>, leases: map<LeaseId, LeaseRow>, operations: seq<Operation>, alive: set<Backend>, checks: map<TransactionId, Observation>, b: Backend)
    requires TransactionsOk(transactions, leases, operations, alive) && OneByOne(transactions) && Checked(transactions, checks)
    ensures TransactionsOk(RolledBack(transactions, b), leases, operations, alive - {b})
    ensures OneByOne(RolledBack(transactions, b)) && Checked(RolledBack(transactions, b), checks)
  {
    forall t | 0 <= t < |transactions|
      ensures TransactionOk(RolledBack(transactions, b)[t], leases, operations, alive - {b})
    {
      assert TransactionOk(transactions[t], leases, operations, alive);
    }
  }

  lemma MoreLeases(transactions: seq<Transaction>, leases: map<LeaseId, LeaseRow>, operations: seq<Operation>, alive: set<Backend>, l: LeaseId, row: LeaseRow)
    requires TransactionsOk(transactions, leases, operations, alive) && l !in leases
    ensures TransactionsOk(transactions, leases[l := row], operations, alive)
  {
    forall t | 0 <= t < |transactions|
      ensures TransactionOk(transactions[t], leases[l := row], operations, alive)
    {
      assert TransactionOk(transactions[t], leases, operations, alive);
    }
  }

  lemma SameLeases(transactions: seq<Transaction>, leases: map<LeaseId, LeaseRow>, operations: seq<Operation>, alive: set<Backend>, l: LeaseId, row: LeaseRow)
    requires TransactionsOk(transactions, leases, operations, alive) && l in leases
    requires row.backend == leases[l].backend
    ensures TransactionsOk(transactions, leases[l := row], operations, alive)
  {
    forall t | 0 <= t < |transactions|
      ensures TransactionOk(transactions[t], leases[l := row], operations, alive)
    {
      assert TransactionOk(transactions[t], leases, operations, alive);
    }
  }

  lemma PhaseOk(transactions: seq<Transaction>, leases: map<LeaseId, LeaseRow>, operations: seq<Operation>, alive: set<Backend>, t: TransactionId, phase: Phase)
    requires TransactionsOk(transactions, leases, operations, alive) && OneByOne(transactions) && t < |transactions| && Open(transactions[t])
    requires phase.Fenced? || phase.Committed? ==> leases[transactions[t].lease].backend == transactions[t].backend
    ensures TransactionsOk(transactions[t := transactions[t].(phase := phase)], leases, operations, alive)
    ensures OneByOne(transactions[t := transactions[t].(phase := phase)])
  {
    var after := transactions[t := transactions[t].(phase := phase)];
    forall s | 0 <= s < |after|
      ensures TransactionOk(after[s], leases, operations, alive)
    {
      assert TransactionOk(transactions[s], leases, operations, alive);
    }
  }

  lemma FencedHolds(transactions: seq<Transaction>, leases: map<LeaseId, LeaseRow>, operations: seq<Operation>, alive: set<Backend>, lock: Lock, t: TransactionId)
    requires TransactionsOk(transactions, leases, operations, alive) && LockCounts(leases, alive, lock)
    requires t < |transactions| && transactions[t].phase.Fenced? && transactions[t].lease in leases && !leases[transactions[t].lease].released
    ensures lock.Held? && lock.holder == transactions[t].backend
  {
    assert TransactionOk(transactions[t], leases, operations, alive);
    assert transactions[t].lease in Relying(leases, transactions[t].backend);
  }
}
