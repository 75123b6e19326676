/** The demand curve of an auction: bids summed by tick, accumulated from the highest tick down. */
module DemandCurve {
  import opened Records
  import opened Ordering

  datatype Bid = Bid(tick: int, amount: nat)

  datatype Level = Level(tick: int, amount: nat, cumulative: nat)

  function AmountAt(bids: seq<Bid>, tick: int): nat {
    if bids == [] then 0
    else AmountAt(bids[..|bids| - 1], tick) + if bids[|bids| - 1].tick == tick then bids[|bids| - 1].amount else 0
  }

  /** The sum of all bids at or above a tick. */
  function DemandAt(bids: seq<Bid>, tick: int): nat {
    if bids == [] then 0
    else DemandAt(bids[..|bids| - 1], tick) + if bids[|bids| - 1].tick >= tick then bids[|bids| - 1].amount else 0
  }

  function Total(bids: seq<Bid>): nat {
    if bids == [] then 0 else Total(bids[..|bids| - 1]) + bids[|bids| - 1].amount
  }

  predicate HasTick(bids: seq<Bid>, tick: int) {
    exists i :: 0 <= i < |bids| && bids[i].tick == tick
  }

  function Ticks(levels: seq<Level>): seq<int> {
    seq(|levels|, i requires 0 <= i < |levels| => levels[i].tick)
  }

  ghost predicate IsDemandCurve(bids: seq<Bid>, levels: seq<Level>) {
    && Descending(Ticks(levels))
    && (forall t :: t in Ticks(levels) <==> HasTick(bids, t))
    && (forall i :: 0 <= i < |levels| ==>
          levels[i].amount == AmountAt(bids, levels[i].tick) && levels[i].cumulative == DemandAt(bids, levels[i].tick))
    && (levels != [] ==> levels[|levels| - 1].cumulative == Total(bids))
  }

  method AuctionDemandCurve(bids: seq<Bid>) returns (levels: seq<Level>)
    ensures IsDemandCurve(bids, levels)
  {
    var totals: map<int, nat> := map[];
    for i := 0 to |bids|
      invariant forall t :: t in totals <==> HasTick(bids[..i], t)
      invariant forall t :: t in totals ==> totals[t] == AmountAt(bids[..i], t)
    {
      assert bids[..i + 1][..i] == bids[..i];
      var bid := bids[i];
      forall t
        ensures HasTick(bids[..i + 1], t) <==> t == bid.tick || HasTick(bids[..i], t)
        ensures !HasTick(bids[..i], t) ==> AmountAt(bids[..i], t) == 0
      {
        OneMoreTick(bids[..i], bid, t);
        assert bids[..i + 1] == bids[..i] + [bid];
      }
      totals := totals[bid.tick := (if bid.tick in totals then totals[bid.tick] else 0) + bid.amount];
    }
    assert bids[..|bids|] == bids;
    var ticks := DescendingOrder(totals.Keys);
    var cumulative := 0;
    levels := [];
    for i := 0 to |ticks|
      invariant |levels| == i && forall k :: 0 <= k < i ==> levels[k].tick == ticks[k]
      invariant forall k :: 0 <= k < i ==>
                  levels[k].amount == AmountAt(bids, ticks[k]) && levels[k].cumulative == DemandAt(bids, ticks[k])
      invariant cumulative == if i == 0 then 0 else DemandAt(bids, ticks[i - 1])
    {
      assert ticks[i] in totals;
      NextLevel(bids, ticks, i);
      cumulative := cumulative + totals[ticks[i]];
      levels := levels + [Level(ticks[i], totals[ticks[i]], cumulative)];
    }
    assert Ticks(levels) == ticks;
    if ticks != [] {
      LastLevel(bids, ticks);
    }
  }

  lemma {:induction false} OneMoreTick(bids: seq<Bid>, bid: Bid, t: int)
    ensures HasTick(bids + [bid], t) <==> t == bid.tick || HasTick(bids, t)
    ensures !HasTick(bids, t) ==> AmountAt(bids, t) == 0
  {
    var more := bids + [bid];
    assert forall i :: 0 <= i < |bids| ==> more[i] == bids[i];
    assert more[|bids|] == bid;
    if bids != [] {
      var front := bids[..|bids| - 1];
      assert forall i :: 0 <= i < |front| ==> front[i] == bids[i];
      OneMoreTick(front, bid, t);
    }
  }

  /** No bid lies between neighbouring ticks of the curve. */
  lemma NextLevel(bids: seq<Bid>, ticks: seq<int>, i: nat)
    requires Descending(ticks) && i < |ticks| && forall t :: t in ticks <==> HasTick(bids, t)
    ensures DemandAt(bids, ticks[i]) == (if i == 0 then 0 else DemandAt(bids, ticks[i - 1])) + AmountAt(bids, ticks[i])
  {
    forall k | 0 <= k < |bids|
      ensures bids[k].tick > ticks[i] ==> i > 0 && bids[k].tick >= ticks[i - 1]
    {
      assert HasTick(bids, bids[k].tick);
      var p :| 0 <= p < |ticks| && ticks[p] == bids[k].tick;
    }
    DemandSteps(bids, ticks[i], if i == 0 then None else Some(ticks[i - 1]));
  }

  lemma {:induction false} DemandSteps(bids: seq<Bid>, tick: int, above: Option<int>)
    requires above.Some? ==> above.value > tick
    requires forall k :: 0 <= k < |bids| && bids[k].tick > tick ==> above.Some? && bids[k].tick >= above.value
    ensures DemandAt(bids, tick) == (if above.None? then 0 else DemandAt(bids, above.value)) + AmountAt(bids, tick)
  {
    if bids != [] {
      var front := bids[..|bids| - 1];
      assert forall k :: 0 <= k < |front| ==> front[k] == bids[k];
      DemandSteps(front, tick, above);
      assert bids[|bids| - 1].tick > tick ==> above.Some? && bids[|bids| - 1].tick >= above.value;
    }
  }

  lemma LastLevel(bids: seq<Bid>, ticks: seq<int>)
    requires Descending(ticks) && ticks != [] && forall t :: t in ticks <==> HasTick(bids, t)
    ensures DemandAt(bids, ticks[|ticks| - 1]) == Total(bids)
  {
    forall k | 0 <= k < |bids|
      ensures bids[k].tick >= ticks[|ticks| - 1]
    {
      assert HasTick(bids, bids[k].tick);
      var p :| 0 <= p < |ticks| && ticks[p] == bids[k].tick;
    }
    AllAbove(bids, ticks[|ticks| - 1]);
  }

  lemma {:induction false} AllAbove(bids: seq<Bid>, tick: int)
    requires forall k :: 0 <= k < |bids| ==> bids[k].tick >= tick
    ensures DemandAt(bids, tick) == Total(bids)
  {
    if bids != [] {
      AllAbove(bids[..|bids| - 1], tick);
    }
  }

  // ---------------------------------------------------------------- the order of the bids

  lemma {:induction false} DemandWithout(bids: seq<Bid>, i: nat, tick: int)
    requires i < |bids|
    ensures DemandAt(bids, tick) == DemandAt(bids[..i] + bids[i + 1..], tick) + if bids[i].tick >= tick then bids[i].amount else 0
    ensures AmountAt(bids, tick) == AmountAt(bids[..i] + bids[i + 1..], tick) + if bids[i].tick == tick then bids[i].amount else 0
  {
    var front, last := bids[..|bids| - 1], bids[|bids| - 1];
    if i == |bids| - 1 {
      assert bids[..i] + bids[i + 1..] == front;
    } else {
      DemandWithout(front, i, tick);
      var rest := bids[..i] + bids[i + 1..];
      assert rest[..|rest| - 1] == front[..i] + front[i + 1..];
      assert rest[|rest| - 1] == last;
    }
  }

  lemma RemovedOnce(bids: seq<Bid>, i: nat)
    requires i < |bids|
    ensures multiset(bids[..i] + bids[i + 1..]) == multiset(bids) - multiset{bids[i]}
  {
    assert bids == bids[..i] + ([bids[i]] + bids[i + 1..]);
  }

  lemma {:induction false} OrderIsIrrelevant(bids: seq<Bid>, others: seq<Bid>, tick: int)
    requires multiset(bids) == multiset(others)
    ensures DemandAt(bids, tick) == DemandAt(others, tick) && AmountAt(bids, tick) == AmountAt(others, tick)
  {
    if bids == [] {
      assert multiset(others) == multiset{};
      assert |others| == |multiset(others)|;
    } else {
      var front, last := bids[..|bids| - 1], bids[|bids| - 1];
      assert bids == front + [last];
      assert last in multiset(others);
      var i :| 0 <= i < |others| && others[i] == last;
      RemovedOnce(others, i);
      assert multiset(bids) == multiset(front) + multiset{last};
      OrderIsIrrelevant(front, others[..i] + others[i + 1..], tick);
      DemandWithout(others, i, tick);
    }
  }

  /** The same bids in another order give the same curve. */
  lemma CurveIgnoresOrder(bids: seq<Bid>, others: seq<Bid>, levels: seq<Level>, otherLevels: seq<Level>)
    requires multiset(bids) == multiset(others)
    requires IsDemandCurve(bids, levels) && IsDemandCurve(others, otherLevels)
    ensures levels == otherLevels
  {
    forall t
      ensures HasTick(bids, t) <==> HasTick(others, t)
    {
      if HasTick(bids, t) {
        SameTicks(bids, others, t);
      }
      if HasTick(others, t) {
        SameTicks(others, bids, t);
      }
    }
    DescendingUnique(Ticks(levels), Ticks(otherLevels));
    forall i | 0 <= i < |levels|
      ensures levels[i] == otherLevels[i]
    {
      assert Ticks(levels)[i] == Ticks(otherLevels)[i];
      OrderIsIrrelevant(bids, others, levels[i].tick);
    }
  }

  lemma SameTicks(bids: seq<Bid>, others: seq<Bid>, t: int)
    requires multiset(bids) == multiset(others) && HasTick(bids, t)
    ensures HasTick(others, t)
  {
    var i :| 0 <= i < |bids| && bids[i].tick == t;
    assert bids[i] in multiset(others);
    var j :| 0 <= j < |others| && others[j] == bids[i];
  }
}
