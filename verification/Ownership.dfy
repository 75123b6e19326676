/** The loop in which a replica tries to own the indexer: acquire, verify, seed, run, release, and over
    again; and the status it reports. */
module Ownership {
  import opened Records

  datatype Stage = Acquire | Verify | Seed | OwnedRun | ReleaseStage

  datatype Event =
    | Standby
    | Acquired(recoveredAfterFailures: nat, acquiredAfterStandby: bool)
    | Failure(stage: Stage, consecutiveFailures: nat)
    | Released

  /** What the loop does with leases, and what it reports. */
  datatype Action = Take | Drop | Report(event: Event)

  /** How one round turns out: no connection, somebody else's lock, or a lease whose stages fail at some
      point (if at all), after a long run or a short one, and whose release may fail too. */
  datatype Round = NoConnection | LockedElsewhere | GotLease(fails: Option<Stage>, longRun: bool, releaseFails: bool)

  datatype Status = Status(active: bool, failuresTotal: nat, reacquisitionsTotal: nat, consecutiveFailures: nat, lastFailure: Option<Stage>)

  const UNKNOWN := Status(false, 0, 0, 0, None)

  function NextStatus(s: Status, e: Event): Status {
    match e
    case Failure(stage, consecutive) =>
      s.(active := false, failuresTotal := s.failuresTotal + 1, consecutiveFailures := consecutive, lastFailure := Some(stage))
    case Acquired(recovered, afterStandby) =>
      s.(active := true, consecutiveFailures := 0,
         reacquisitionsTotal := s.reacquisitionsTotal + if recovered > 0 || afterStandby then 1 else 0)
    case Standby => s.(active := false, consecutiveFailures := 0)
    case Released => s.(active := false)
  }

  function StatusAfter(actions: seq<Action>): Status {
    if actions == [] then UNKNOWN
    else
      var before, last := StatusAfter(actions[..|actions| - 1]), actions[|actions| - 1];
      if last.Report? then NextStatus(before, last.event) else before
  }

  /** The number of leases taken and not dropped yet. */
  function Holding(actions: seq<Action>): int {
    if actions == [] then 0
    else
      Holding(actions[..|actions| - 1])
      + (match actions[|actions| - 1] case Take => 1 case Drop => -1 case Report(_) => 0)
  }

  /** At no point is a second lease taken, nor one dropped that is not held. */
  ghost predicate OneLeaseAtATime(actions: seq<Action>) {
    forall i :: 0 <= i <= |actions| ==> 0 <= Holding(actions[..i]) <= 1
  }

  function Failures(actions: seq<Action>): nat {
    if actions == [] then 0
    else Failures(actions[..|actions| - 1]) + if actions[|actions| - 1].Report? && actions[|actions| - 1].event.Failure? then 1 else 0
  }

  ghost predicate Kept(actions: seq<Action>) {
    OneLeaseAtATime(actions) && StatusAfter(actions).failuresTotal == Failures(actions)
  }

  predicate Allowed(held: int, a: Action) {
    match a
    case Take => held == 0
    case Drop => held == 1
    case Report(_) => true
  }

  lemma OneMoreAction(actions: seq<Action>, a: Action)
    ensures Takes(actions + [a]) == Takes(actions) + (if a.Take? then 1 else 0)
    ensures Standbys(actions + [a]) == Standbys(actions) + (if a == Report(Standby) then 1 else 0)
  {
    assert (actions + [a])[..|actions|] == actions;
  }

  lemma Step(actions: seq<Action>, a: Action)
    requires Kept(actions) && Allowed(Holding(actions), a)
    ensures Kept(actions + [a])
    ensures Holding(actions + [a]) == Holding(actions) + (match a case Take => 1 case Drop => -1 case Report(_) => 0)
    ensures StatusAfter(actions + [a]) == if a.Report? then NextStatus(StatusAfter(actions), a.event) else StatusAfter(actions)
  {
    var more := actions + [a];
    assert more[..|actions|] == actions && more[..|more|] == more && actions[..|actions|] == actions;
    assert 0 <= Holding(actions[..|actions|]) <= 1;
    forall i | 0 <= i <= |more|
      ensures 0 <= Holding(more[..i]) <= 1
    {
      if i <= |actions| {
        assert more[..i] == actions[..i];
      }
    }
  }

  // ---------------------------------------------------------------- what the rounds come to

  /** The round ends in a failure, whether of a stage, of the release, or of getting a connection. */
  predicate Fails(r: Round) {
    r.NoConnection? || (r.GotLease? && (r.fails.Some? || r.releaseFails))
  }

  /** The stage that is to blame: of several failures in a round only the first is reported. */
  function Blamed(r: Round): Stage
    requires Fails(r)
  {
    if r.NoConnection? then Acquire else if r.fails.Some? then r.fails.value else ReleaseStage
  }

  /** The lease was got and its network seeded. */
  predicate Settles(r: Round) {
    r.GotLease? && r.fails != Some(Verify) && r.fails != Some(Seed)
  }

  function FailedRounds(rounds: seq<Round>): nat {
    if rounds == [] then 0 else FailedRounds(rounds[..|rounds| - 1]) + if Fails(rounds[|rounds| - 1]) then 1 else 0
  }

  /** The failures in a row: a round that waits or goes well ends the row, and one that fails after a
      long run starts another. */
  function Streak(rounds: seq<Round>): nat {
    if rounds == [] || !Fails(rounds[|rounds| - 1]) then 0
    else
      var last := rounds[|rounds| - 1];
      1 + if last.GotLease? && (last.fails.None? || (last.fails == Some(OwnedRun) && last.longRun)) then 0 else Streak(rounds[..|rounds| - 1])
  }

  /** Somebody else has had the lock since a lease was last settled. */
  predicate WaitedSince(rounds: seq<Round>) {
    exists i :: 0 <= i < |rounds| && rounds[i].LockedElsewhere? && forall j :: i < j < |rounds| ==> !Settles(rounds[j])
  }

  /** Somebody else has had the lock since a lease was last got. */
  predicate InStandby(rounds: seq<Round>) {
    exists i :: 0 <= i < |rounds| && rounds[i].LockedElsewhere? && forall j :: i < j < |rounds| ==> !rounds[j].GotLease?
  }

  /** Leases settled after waiting or after failures. */
  function Reacquisitions(rounds: seq<Round>): nat {
    if rounds == [] then 0
    else
      var front := rounds[..|rounds| - 1];
      Reacquisitions(front) + if Settles(rounds[|rounds| - 1]) && (Streak(front) > 0 || WaitedSince(front)) then 1 else 0
  }

  function LastBlamed(rounds: seq<Round>): Option<Stage> {
    if rounds == [] then None
    else if Fails(rounds[|rounds| - 1]) then Some(Blamed(rounds[|rounds| - 1]))
    else LastBlamed(rounds[..|rounds| - 1])
  }

  function LeasesGot(rounds: seq<Round>): nat {
    if rounds == [] then 0 else LeasesGot(rounds[..|rounds| - 1]) + if rounds[|rounds| - 1].GotLease? then 1 else 0
  }

  /** Standby is announced once per wait, however many rounds it lasts. */
  function StandbyPeriods(rounds: seq<Round>): nat {
    if rounds == [] then 0
    else StandbyPeriods(rounds[..|rounds| - 1]) + if rounds[|rounds| - 1].LockedElsewhere? && !InStandby(rounds[..|rounds| - 1]) then 1 else 0
  }

  /** The failures in a row as last reported: a wait that has been announced already is not reported again. */
  function ReportedStreak(rounds: seq<Round>): nat {
    if rounds == [] then 0
    else if rounds[|rounds| - 1].LockedElsewhere? && InStandby(rounds[..|rounds| - 1]) then ReportedStreak(rounds[..|rounds| - 1])
    else Streak(rounds)
  }

  /** So what is reported lags behind exactly if another wait follows failures within the same standby, as
      in a wait, a failed connection, and a wait. */
  lemma ReportLagsExactly(rounds: seq<Round>)
    ensures ReportedStreak(rounds) != Streak(rounds) <==>
            && rounds != [] && rounds[|rounds| - 1].LockedElsewhere? && InStandby(rounds[..|rounds| - 1])
            && ReportedStreak(rounds[..|rounds| - 1]) > 0
    ensures ReportedStreak([LockedElsewhere, NoConnection, LockedElsewhere]) == 1 && Streak([LockedElsewhere, NoConnection, LockedElsewhere]) == 0
  {
    var rs := [LockedElsewhere, NoConnection];
    assert rs[0].LockedElsewhere? && InStandby(rs);
    assert (rs + [LockedElsewhere])[..2] == rs && rs + [LockedElsewhere] == [LockedElsewhere, NoConnection, LockedElsewhere];
    assert Streak(rs) == 1 && ReportedStreak(rs) == 1;
  }

  function Takes(actions: seq<Action>): nat {
    if actions == [] then 0 else Takes(actions[..|actions| - 1]) + if actions[|actions| - 1].Take? then 1 else 0
  }

  function Standbys(actions: seq<Action>): nat {
    if actions == [] then 0 else Standbys(actions[..|actions| - 1]) + if actions[|actions| - 1] == Report(Standby) then 1 else 0
  }

  /** One more round. */
  lemma OneMoreRound(rounds: seq<Round>, r: Round)
    ensures var more := rounds + [r];
            && FailedRounds(more) == FailedRounds(rounds) + (if Fails(r) then 1 else 0)
            && LastBlamed(more) == (if Fails(r) then Some(Blamed(r)) else LastBlamed(rounds))
            && LeasesGot(more) == LeasesGot(rounds) + (if r.GotLease? then 1 else 0)
            && Reacquisitions(more) == Reacquisitions(rounds) + (if Settles(r) && (Streak(rounds) > 0 || WaitedSince(rounds)) then 1 else 0)
            && ReportedStreak(more) == (if r.LockedElsewhere? && InStandby(rounds) then ReportedStreak(rounds) else Streak(more))
            && StandbyPeriods(more) == StandbyPeriods(rounds) + (if r.LockedElsewhere? && !InStandby(rounds) then 1 else 0)
  {
    assert (rounds + [r])[..|rounds|] == rounds;
  }

  lemma OneMoreInRow(rounds: seq<Round>, r: Round)
    ensures var more := rounds + [r];
            Streak(more) == if !Fails(r) then 0
                            else 1 + if r.GotLease? && (r.fails.None? || (r.fails == Some(OwnedRun) && r.longRun)) then 0 else Streak(rounds)
  {
    assert (rounds + [r])[..|rounds|] == rounds;
  }

  lemma WaitsOn(rounds: seq<Round>, r: Round)
    ensures WaitedSince(rounds + [r]) <==> r.LockedElsewhere? || (!Settles(r) && WaitedSince(rounds))
    ensures InStandby(rounds + [r]) <==> r.LockedElsewhere? || (!r.GotLease? && InStandby(rounds))
  {
    var more := rounds + [r];
    assert forall i :: 0 <= i < |rounds| ==> more[i] == rounds[i];
    assert more[|rounds|] == r;
    if !Settles(r) && WaitedSince(rounds) {
      var i :| 0 <= i < |rounds| && rounds[i].LockedElsewhere? && forall j :: i < j < |rounds| ==> !Settles(rounds[j]);
      assert more[i].LockedElsewhere? && forall j :: i < j < |more| ==> !Settles(more[j]);
    }
    if !r.GotLease? && InStandby(rounds) {
      var i :| 0 <= i < |rounds| && rounds[i].LockedElsewhere? && forall j :: i < j < |rounds| ==> !rounds[j].GotLease?;
      assert more[i].LockedElsewhere? && forall j :: i < j < |more| ==> !more[j].GotLease?;
    }
  }

  lemma StreakIsZero(rounds: seq<Round>)
    ensures Streak(rounds) == 0 <==> rounds == [] || !Fails(rounds[|rounds| - 1])
  {
  }

  class OwnershipLifecycle {
    var standbyReported: bool
    var wasStandby: bool
    var consecutiveFailures: nat
    // the status as reported, whether a lease is held, and all that happened
    var status: Status
    ghost var held: int
    ghost var taken: nat
    ghost var standbys: nat
    ghost var actions: seq<Action>
    // the rounds so far
    ghost var rounds: seq<Round>

    ghost predicate Traced()
      reads this
    {
      && Kept(actions) && held == Holding(actions) && status == StatusAfter(actions)
      && taken == Takes(actions) && standbys == Standbys(actions)
    }

    /** Between rounds no lease is held, and none is reported as held. */
    ghost predicate Valid()
      reads this
    {
      Traced() && held == 0 && !status.active && Accounted(rounds)
    }

    /** What is counted and remembered is what the rounds come to. */
    ghost predicate Accounted(rs: seq<Round>)
      reads this
    {
      && status.failuresTotal == FailedRounds(rs) && status.lastFailure == LastBlamed(rs)
      && status.reacquisitionsTotal == Reacquisitions(rs)
      && consecutiveFailures == Streak(rs)
      && wasStandby == WaitedSince(rs) && standbyReported == InStandby(rs)
      && status.consecutiveFailures == ReportedStreak(rs)
      && taken == LeasesGot(rs) && standbys == StandbyPeriods(rs)
    }

    constructor ()
      ensures Valid() && actions == [] && rounds == []
    {
      standbyReported, wasStandby, consecutiveFailures, status := false, false, 0, UNKNOWN;
      held, taken, standbys, actions, rounds := 0, 0, 0, [], [];
    }

    method Do(a: Action)
      requires Traced() && Allowed(held, a)
      modifies this`actions, this`held, this`taken, this`standbys, this`status
      ensures Traced() && actions == old(actions) + [a]
      ensures held == old(held) + (match a case Take => 1 case Drop => -1 case Report(_) => 0)
      ensures status == if a.Report? then NextStatus(old(status), a.event) else old(status)
      ensures taken == old(taken) + (if a.Take? then 1 else 0)
      ensures standbys == old(standbys) + (if a == Report(Standby) then 1 else 0)
    {
      Step(actions, a);
      OneMoreAction(actions, a);
      if a.Report? {
        status := NextStatus(status, a.event);
      }
      held := held + (match a case Take => 1 case Drop => -1 case Report(_) => 0);
      taken, standbys := taken + if a.Take? then 1 else 0, standbys + if a == Report(Standby) then 1 else 0;
      actions := actions + [a];
    }

    /** A stage failed: the failures in a row grow, counted anew after a long run. */
    method Fail(stage: Stage, longRun: bool)
      requires Traced()
      modifies this`consecutiveFailures, this`actions, this`held, this`taken, this`standbys, this`status
      ensures Traced() && held == old(held) && !status.active && old(actions) <= actions
      ensures status == Status(false, old(status.failuresTotal) + 1, old(status.reacquisitionsTotal), consecutiveFailures, Some(stage))
      ensures taken == old(taken) && standbys == old(standbys)
      ensures consecutiveFailures == (if stage.OwnedRun? && longRun then 0 else old(consecutiveFailures)) + 1
    {
      if stage.OwnedRun? && longRun {
        consecutiveFailures := 0;
      }
      consecutiveFailures := consecutiveFailures + 1;
      Do(Report(Event.Failure(stage, consecutiveFailures)));
    }

    /** One round of the loop. */
    method RunRound(round: Round)
      requires Valid()
      modifies this
      ensures Valid() && old(actions) <= actions && rounds == old(rounds) + [round]
    {
      match round
      case NoConnection => RoundWithoutConnection();
      case LockedElsewhere => RoundElsewhere();
      case GotLease(fails, longRun, releaseFails) => RoundWithLease(fails, longRun, releaseFails);
    }

    ghost method Note(round: Round)
      requires Traced() && held == 0 && !status.active && Accounted(rounds + [round])
      modifies this`rounds
      ensures Valid() && rounds == old(rounds) + [round]
    {
      rounds := rounds + [round];
    }

    method RoundWithoutConnection()
      requires Valid()
      modifies this
      ensures Valid() && old(actions) <= actions && rounds == old(rounds) + [NoConnection]
    {
      OneMoreRound(rounds, NoConnection);
      OneMoreInRow(rounds, NoConnection);
      WaitsOn(rounds, NoConnection);
      Fail(Acquire, false);
      Note(NoConnection);
    }

    method RoundElsewhere()
      requires Valid()
      modifies this
      ensures Valid() && old(actions) <= actions && rounds == old(rounds) + [LockedElsewhere]
    {
      OneMoreRound(rounds, LockedElsewhere);
      OneMoreInRow(rounds, LockedElsewhere);
      WaitsOn(rounds, LockedElsewhere);
      Wait();
      Note(LockedElsewhere);
    }

    method RoundWithLease(fails: Option<Stage>, longRun: bool, releaseFails: bool)
      requires Valid()
      modifies this
      ensures Valid() && old(actions) <= actions && rounds == old(rounds) + [GotLease(fails, longRun, releaseFails)]
    {
      var round := GotLease(fails, longRun, releaseFails);
      OneMoreRound(rounds, round);
      OneMoreInRow(rounds, round);
      WaitsOn(rounds, round);
      StreakIsZero(rounds);
      RunLease(fails, longRun, releaseFails);
      Note(round);
    }

    /** Somebody else has the lock, which is announced once. */
    method Wait()
      requires Traced()
      modifies this`standbyReported, this`wasStandby, this`consecutiveFailures, this`status, this`held, this`taken, this`standbys, this`actions
      ensures Traced() && held == old(held) && old(actions) <= actions
      ensures consecutiveFailures == 0 && wasStandby && standbyReported && taken == old(taken)
      ensures standbys == old(standbys) + (if old(standbyReported) then 0 else 1)
      ensures old(standbyReported) ==> status == old(status)
      ensures !old(standbyReported) ==> !status.active && status.consecutiveFailures == 0
      ensures status.failuresTotal == old(status.failuresTotal) && status.lastFailure == old(status.lastFailure)
      ensures status.reacquisitionsTotal == old(status.reacquisitionsTotal)
    {
      consecutiveFailures, wasStandby := 0, true;
      if !standbyReported {
        Do(Report(Standby));
        standbyReported := true;
      }
    }

    /** A round that got the lease. */
    method RunLease(fails: Option<Stage>, longRun: bool, releaseFails: bool)
      requires Traced() && held == 0
      modifies this`standbyReported, this`wasStandby, this`consecutiveFailures, this`status, this`held, this`taken, this`standbys, this`actions
      ensures Traced() && held == 0 && !status.active && old(actions) <= actions
      ensures !standbyReported && taken == old(taken) + 1 && standbys == old(standbys)
      ensures status.failuresTotal == old(status.failuresTotal) + (if fails.Some? || releaseFails then 1 else 0)
      ensures status.lastFailure == if fails.Some? then fails else if releaseFails then Some(ReleaseStage) else old(status.lastFailure)
      ensures consecutiveFailures == if fails.None? then if releaseFails then 1 else 0
                                     else 1 + if fails == Some(OwnedRun) && longRun then 0 else old(consecutiveFailures)
      ensures status.consecutiveFailures == consecutiveFailures
      ensures if fails == Some(Verify) || fails == Some(Seed)
              then wasStandby == old(wasStandby) && status.reacquisitionsTotal == old(status.reacquisitionsTotal)
              else !wasStandby && status.reacquisitionsTotal
                                  == old(status.reacquisitionsTotal) + (if old(consecutiveFailures) > 0 || old(wasStandby) then 1 else 0)
    {
      Do(Take);
      standbyReported := false;
      var failed := RunHolding(fails, longRun);
      GiveUp(releaseFails && !failed);
    }

    /** The lease goes; that its release fails is reported only if nothing failed before. */
    method GiveUp(fails: bool)
      requires Traced() && held == 1
      modifies this`consecutiveFailures, this`status, this`held, this`taken, this`standbys, this`actions
      ensures Traced() && held == 0 && !status.active && old(actions) <= actions && taken == old(taken) && standbys == old(standbys)
      ensures consecutiveFailures == old(consecutiveFailures) + (if fails then 1 else 0)
      ensures status.failuresTotal == old(status.failuresTotal) + (if fails then 1 else 0)
      ensures status.lastFailure == if fails then Some(ReleaseStage) else old(status.lastFailure)
      ensures status.reacquisitionsTotal == old(status.reacquisitionsTotal)
      ensures status.consecutiveFailures == if fails then consecutiveFailures else old(status.consecutiveFailures)
    {
      Do(Drop);
      if fails {
        Fail(ReleaseStage, false);
      }
      Do(Report(Released));
    }

    /** The stages with a lease in hand: verify, seed, run. */
    method RunHolding(fails: Option<Stage>, longRun: bool) returns (failed: bool)
      requires Traced() && held == 1
      modifies this`wasStandby, this`consecutiveFailures, this`actions, this`held, this`taken, this`standbys, this`status
      ensures Traced() && held == 1 && old(actions) <= actions
      ensures failed <==> fails.Some?
      ensures (status.active <==> !failed) && status.consecutiveFailures == consecutiveFailures
      ensures taken == old(taken) && standbys == old(standbys)
      ensures status.failuresTotal == old(status.failuresTotal) + (if failed then 1 else 0)
      ensures status.lastFailure == if failed then fails else old(status.lastFailure)
      ensures consecutiveFailures == if !failed then 0 else (if fails == Some(OwnedRun) && longRun then 0 else old(consecutiveFailures)) + 1
      ensures if fails == Some(Verify) || fails == Some(Seed)
              then wasStandby == old(wasStandby) && status.reacquisitionsTotal == old(status.reacquisitionsTotal)
              else !wasStandby && status.reacquisitionsTotal
                                  == old(status.reacquisitionsTotal) + (if old(consecutiveFailures) > 0 || old(wasStandby) then 1 else 0)
    {
      if fails == Some(Verify) || fails == Some(Seed) {
        Fail(fails.value, false);
        return true;
      }
      Do(Report(Acquired(consecutiveFailures, wasStandby)));
      wasStandby := false;
      failed := fails.Some?;
      if failed {
        Fail(fails.value, longRun);
      } else {
        consecutiveFailures := 0;
      }
    }

    /** However the rounds turn out, leases are taken and dropped strictly in turn, one for each round that
        got one; every round that failed is counted once, with the stage to blame; a wait is announced
        once; and a lease settled after a wait or after failures counts as reacquired. */
    method Run(more: seq<Round>)
      requires Valid()
      modifies this
      ensures Valid() && OneLeaseAtATime(actions) && old(actions) <= actions && rounds == old(rounds) + more
      ensures status.failuresTotal == FailedRounds(rounds) && status.lastFailure == LastBlamed(rounds)
      ensures status.reacquisitionsTotal == Reacquisitions(rounds)
      ensures Takes(actions) == LeasesGot(rounds) && Standbys(actions) == StandbyPeriods(rounds)
    {
      for i := 0 to |more|
        invariant Valid() && old(actions) <= actions && rounds == old(rounds) + more[..i]
      {
        RunRound(more[i]);
        assert more[..i + 1] == more[..i] + [more[i]];
      }
      assert more[..|more|] == more;
    }
  }

  /** A second lease is never taken before the first one is dropped. */
  lemma {:induction false} DroppedInBetween(actions: seq<Action>, i: nat, j: nat)
    requires OneLeaseAtATime(actions) && i < j < |actions| && actions[i].Take? && actions[j].Take?
    ensures exists k :: i < k < j && actions[k].Drop?
  {
    assert actions[..i + 1][..i] == actions[..i] && actions[..j + 1][..j] == actions[..j];
    assert 0 <= Holding(actions[..i]) && Holding(actions[..j + 1]) <= 1;
    assert Holding(actions[..i + 1]) == Holding(actions[..i]) + 1 && Holding(actions[..j + 1]) == Holding(actions[..j]) + 1;
    if forall k :: i < k < j ==> !actions[k].Drop? {
      NothingDropped(actions, i + 1, j);
    }
  }

  lemma {:induction false} NothingDropped(actions: seq<Action>, i: nat, j: nat)
    requires i <= j <= |actions| && forall k :: i <= k < j ==> !actions[k].Drop?
    ensures Holding(actions[..j]) >= Holding(actions[..i])
  {
    if i < j {
      assert actions[..j][..j - 1] == actions[..j - 1];
      NothingDropped(actions, i, j - 1);
    }
  }
}
