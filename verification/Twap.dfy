/** The time-weighted average price over a window, against the exact integral of the price taken
    second by second. */
module Twap {
  import opened Records
  import opened Integers
  import opened Fractions

  datatype Observation = Observation(timestamp: nat, numerator: nat, denominator: nat)

  // ---------------------------------------------------------------- the price at a second, and its integral

  function Later(before: Option<Observation>, x: Observation, t: int): Option<Observation> {
    if x.denominator > 0 && x.timestamp <= t && (before.None? || before.value.timestamp <= x.timestamp)
    then Some(x) else before
  }

  /** The latest usable observation at or before second `t`; of several at once, the last listed. */
  function LatestAt(os: seq<Observation>, t: int): Option<Observation> {
    if os == [] then None else Later(LatestAt(os[..|os| - 1], t), os[|os| - 1], t)
  }

  lemma LatestOfMore(os: seq<Observation>, x: Observation, t: int)
    ensures LatestAt(os + [x], t) == Later(LatestAt(os, t), x, t)
  {
  }

  lemma {:induction false} LatestIsUsable(os: seq<Observation>, t: int)
    ensures LatestAt(os, t).Some? ==> LatestAt(os, t).value.denominator > 0
    ensures LatestAt(os, t).Some? <==> exists i :: 0 <= i < |os| && os[i].denominator > 0 && os[i].timestamp <= t
  {
    if os != [] {
      var front := os[..|os| - 1];
      LatestIsUsable(front, t);
      assert forall i :: 0 <= i < |front| ==> front[i] == os[i];
      if LatestAt(front, t).Some? {
        var i :| 0 <= i < |front| && front[i].denominator > 0 && front[i].timestamp <= t;
        assert os[i].denominator > 0 && os[i].timestamp <= t;
      }
    }
  }

  function PriceOf(active: Option<Observation>): real {
    if active.Some? && active.value.denominator > 0 then Value(active.value.numerator, active.value.denominator) else 0.0
  }

  /** The sum of the prices of the seconds from `from` to before `to`. */
  function Integral(os: seq<Observation>, from: int, to: int): real
    decreases (to - from)
  {
    if from >= to then 0.0 else Integral(os, from, to - 1) + PriceOf(LatestAt(os, to - 1))
  }

  /** The number of those seconds that have a price. */
  function Covered(os: seq<Observation>, from: int, to: int): nat
    decreases (to - from)
  {
    if from >= to then 0 else Covered(os, from, to - 1) + if LatestAt(os, to - 1).Some? then 1 else 0
  }

  /** A window is the sum of its parts. */
  lemma {:induction false} IntegralSplits(os: seq<Observation>, from: int, middle: int, to: int)
    requires from <= middle <= to
    ensures Integral(os, from, to) == Integral(os, from, middle) + Integral(os, middle, to)
    ensures Covered(os, from, to) == Covered(os, from, middle) + Covered(os, middle, to)
    decreases (to - middle)
  {
    if middle < to {
      IntegralSplits(os, from, middle, to - 1);
    }
  }

  lemma {:induction false} ConstantStretch(os: seq<Observation>, from: int, to: int, active: Option<Observation>)
    requires from <= to && forall t :: from <= t < to ==> LatestAt(os, t) == active
    ensures Integral(os, from, to) == PriceOf(active) * (to - from) as real
    ensures Covered(os, from, to) == if active.Some? then to - from else 0
    decreases (to - from)
  {
    if from < to {
      ConstantStretch(os, from, to - 1, active);
      assert (to - from) as real == (to - 1 - from) as real + 1.0;
    }
  }

  /** Once a price is there it stays there. */
  lemma {:induction false} CoveredFromStart(os: seq<Observation>, from: int, to: int)
    requires from < to
    ensures Covered(os, from, to) == to - from <==> LatestAt(os, from).Some?
    ensures Covered(os, from, to) <= to - from
    decreases (to - from)
  {
    LatestIsUsable(os, from);
    LatestIsUsable(os, to - 1);
    if from < to - 1 {
      CoveredFromStart(os, from, to - 1);
    }
  }

  /** Every price of the window lies between `low` and `high`. */
  ghost predicate PricesWithin(os: seq<Observation>, from: int, to: int, low: real, high: real) {
    forall t :: from <= t < to && LatestAt(os, t).Some? ==> low <= PriceOf(LatestAt(os, t)) <= high
  }

  ghost predicate Within(sum: real, count: nat, low: real, high: real) {
    low * count as real <= sum <= high * count as real
  }

  lemma OneMoreWithin(sum: real, count: nat, price: real, low: real, high: real)
    requires Within(sum, count, low, high) && low <= price <= high
    ensures Within(sum + price, count + 1, low, high)
  {
  }

  lemma {:induction false} IntegralWithin(os: seq<Observation>, from: int, to: int, low: real, high: real)
    requires PricesWithin(os, from, to, low, high)
    ensures Within(Integral(os, from, to), Covered(os, from, to), low, high)
    decreases (to - from)
  {
    if from < to {
      IntegralWithin(os, from, to - 1, low, high);
      if LatestAt(os, to - 1).Some? {
        OneMoreWithin(Integral(os, from, to - 1), Covered(os, from, to - 1), PriceOf(LatestAt(os, to - 1)), low, high);
      }
    }
  }

  // ---------------------------------------------------------------- putting the observations in order

  function Usable(os: seq<Observation>): seq<Observation> {
    if os == [] then []
    else Usable(os[..|os| - 1]) + if os[|os| - 1].denominator > 0 then [os[|os| - 1]] else []
  }

  function InsertByTime(os: seq<Observation>, x: Observation): seq<Observation> {
    if os == [] || os[|os| - 1].timestamp <= x.timestamp then os + [x]
    else InsertByTime(os[..|os| - 1], x) + [os[|os| - 1]]
  }

  /** A stable sort. */
  function ByTime(os: seq<Observation>): seq<Observation> {
    if os == [] then [] else InsertByTime(ByTime(os[..|os| - 1]), os[|os| - 1])
  }

  predicate InOrder(os: seq<Observation>) {
    && (forall i, j :: 0 <= i < j < |os| ==> os[i].timestamp <= os[j].timestamp)
    && (forall i :: 0 <= i < |os| ==> os[i].denominator > 0)
  }

  lemma {:induction false} InsertHolds(os: seq<Observation>, x: Observation, y: Observation)
    ensures y in InsertByTime(os, x) <==> y == x || y in os
  {
    if os != [] && os[|os| - 1].timestamp > x.timestamp {
      InsertHolds(os[..|os| - 1], x, y);
      assert os == os[..|os| - 1] + [os[|os| - 1]];
    }
  }

  lemma {:induction false} InsertOrders(os: seq<Observation>, x: Observation)
    requires InOrder(os) && x.denominator > 0
    ensures InOrder(InsertByTime(os, x))
  {
    if os != [] && os[|os| - 1].timestamp > x.timestamp {
      var front, last := os[..|os| - 1], os[|os| - 1];
      InsertOrders(front, x);
      forall i | 0 <= i < |InsertByTime(front, x)|
        ensures InsertByTime(front, x)[i].timestamp <= last.timestamp
      {
        InsertHolds(front, x, InsertByTime(front, x)[i]);
      }
    }
  }

  /** It does not matter in which order the sort looks at two observations of different times. */
  lemma {:induction false} InsertKeepsLatest(os: seq<Observation>, x: Observation, t: int)
    requires InOrder(os)
    ensures LatestAt(InsertByTime(os, x), t) == Later(LatestAt(os, t), x, t)
  {
    if os == [] || os[|os| - 1].timestamp <= x.timestamp {
      LatestOfMore(os, x, t);
    } else {
      var front, last := os[..|os| - 1], os[|os| - 1];
      InsertKeepsLatest(front, x, t);
      LatestOfMore(InsertByTime(front, x), last, t);
      LatestNotLater(front, t);
    }
  }

  lemma {:induction false} LatestNotLater(os: seq<Observation>, t: int)
    ensures LatestAt(os, t).Some? ==> LatestAt(os, t).value in os && LatestAt(os, t).value.timestamp <= t
  {
    if os != [] {
      LatestNotLater(os[..|os| - 1], t);
    }
  }

  lemma {:induction false} OrderedIsSame(os: seq<Observation>, t: int)
    ensures InOrder(ByTime(Usable(os)))
    ensures LatestAt(ByTime(Usable(os)), t) == LatestAt(os, t)
  {
    if os != [] {
      var front, last := os[..|os| - 1], os[|os| - 1];
      OrderedIsSame(front, t);
      var usable := Usable(front);
      if last.denominator > 0 {
        assert (usable + [last])[..|usable|] == usable;
        InsertOrders(ByTime(usable), last);
        InsertKeepsLatest(ByTime(usable), last, t);
      } else {
        assert Usable(os) == usable;
      }
    }
  }

  /** In order, the observation in force is the last one not after the second. */
  lemma {:induction false} InForce(os: seq<Observation>, i: nat, t: int)
    requires InOrder(os) && i <= |os|
    requires i > 0 ==> os[i - 1].timestamp <= t
    requires i < |os| ==> t < os[i].timestamp
    ensures LatestAt(os, t) == if i == 0 then None else Some(os[i - 1])
  {
    if os != [] {
      var front := os[..|os| - 1];
      if i < |os| {
        InForce(front, i, t);
      } else {
        LatestNotLater(front, t);
      }
    }
  }

  // ---------------------------------------------------------------- the average

  datatype Twap =
    | InsufficientObservations(windowSeconds: nat)
    | Average(available: bool, numerator: int, denominator: int, coverageSeconds: nat, windowSeconds: nat)

  datatype TwapError = EmptyWindow

  /** A running sum of prices over time, as a fraction in lowest terms. */
  datatype Sum = Sum(numerator: int, denominator: int, covered: nat)

  ghost predicate SumIs(sum: Sum, os: seq<Observation>, from: int, to: int) {
    && LowestTerms(sum.numerator, sum.denominator)
    && Value(sum.numerator, sum.denominator) == Integral(os, from, to)
    && sum.covered == Covered(os, from, to)
  }

  /** Adding a price for some seconds. */
  method AddStretch(sum: Sum, active: Observation, duration: nat) returns (more: Sum)
    requires LowestTerms(sum.numerator, sum.denominator) && active.denominator > 0
    ensures LowestTerms(more.numerator, more.denominator) && more.covered == sum.covered + duration
    ensures Value(more.numerator, more.denominator) ==
            Value(sum.numerator, sum.denominator) + Value(active.numerator, active.denominator) * duration as real
  {
    var sumNumerator := sum.numerator * active.denominator + active.numerator * duration * sum.denominator;
    var sumDenominator := sum.denominator * active.denominator;
    SumOfFractions(sum.numerator, sum.denominator, active.numerator, active.denominator, duration);
    var numerator, denominator := Reduce(sumNumerator, sumDenominator);
    ReducedIsSame(sumNumerator, sumDenominator);
    SameValue(numerator, denominator, sumNumerator, sumDenominator);
    more := Sum(numerator, denominator, sum.covered + duration);
  }

  lemma SumOfFractions(n: int, d: int, m: int, e: int, duration: nat)
    requires n >= 0 && m >= 0 && d > 0 && e > 0
    ensures n * e + m * duration * d >= 0 && d * e > 0
    ensures Value(n * e + m * duration * d, d * e) == Value(n, d) + Value(m, e) * duration as real
  {
  }

  /** The last observation not after the start. */
  method ActiveAtStart(ordered: seq<Observation>, start: nat) returns (active: Option<Observation>)
    requires InOrder(ordered)
    ensures active == LatestAt(ordered, start)
  {
    var i := |ordered|;
    while i > 0 && ordered[i - 1].timestamp > start
      invariant 0 <= i <= |ordered|
      invariant i < |ordered| ==> ordered[i].timestamp > start
    {
      i := i - 1;
    }
    InForce(ordered, i, start);
    active := if i == 0 then None else Some(ordered[i - 1]);
  }

  /** From the cursor to the next change of price. */
  method AddUpTo(os: seq<Observation>, sum: Sum, active: Option<Observation>, start: nat, cursor: nat, to: nat) returns (more: Sum)
    requires start <= cursor <= to && SumIs(sum, os, start, cursor)
    requires forall t :: cursor <= t < to ==> LatestAt(os, t) == active
    requires active.Some? ==> active.value.denominator > 0
    ensures SumIs(more, os, start, to)
  {
    IntegralSplits(os, start, cursor, to);
    ConstantStretch(os, cursor, to, active);
    if active.Some? && cursor < to {
      more := AddStretch(sum, active.value, to - cursor);
    } else {
      more := sum;
    }
  }

  /** Walks the observations in order, adding each price for as long as it was in force. */
  method WeightedSum(ordered: seq<Observation>, start: nat, end: nat) returns (sum: Sum)
    requires InOrder(ordered) && start < end
    ensures SumIs(sum, ordered, start, end)
  {
    var active := ActiveAtStart(ordered, start);
    var cursor := start;
    sum := Sum(0, 1, 0);
    LatestIsUsable(ordered, start);
    var i := 0;
    while i < |ordered| && ordered[i].timestamp < end
      invariant 0 <= i <= |ordered| && start <= cursor < end
      invariant SumIs(sum, ordered, start, cursor)
      invariant active.Some? ==> active.value.denominator > 0
      invariant i > 0 ==> ordered[i - 1].timestamp <= cursor
      invariant if i == 0 || ordered[i - 1].timestamp <= start then cursor == start && active == LatestAt(ordered, start)
                else active == Some(ordered[i - 1]) && cursor == ordered[i - 1].timestamp
    {
      if ordered[i].timestamp > start {
        InForceBetween(ordered, i, start, cursor, ordered[i].timestamp, active);
        sum := AddUpTo(ordered, sum, active, start, cursor, ordered[i].timestamp);
        active := Some(ordered[i]);
        cursor := ordered[i].timestamp;
      }
      i := i + 1;
    }
    InForceBetween(ordered, i, start, cursor, end, active);
    sum := AddUpTo(ordered, sum, active, start, cursor, end);
  }

  lemma InForceBetween(ordered: seq<Observation>, i: nat, start: nat, cursor: nat, to: nat, active: Option<Observation>)
    requires InOrder(ordered) && i <= |ordered| && start <= cursor <= to
    requires i < |ordered| ==> to <= ordered[i].timestamp && (start < ordered[i].timestamp)
    requires i > 0 ==> ordered[i - 1].timestamp <= cursor
    requires if i == 0 || ordered[i - 1].timestamp <= start then cursor == start && active == LatestAt(ordered, start)
             else active == Some(ordered[i - 1]) && cursor == ordered[i - 1].timestamp
    ensures forall t :: cursor <= t < to ==> LatestAt(ordered, t) == active
  {
    if i == 0 || ordered[i - 1].timestamp <= start {
      InForce(ordered, i, start);
    }
    forall t | cursor <= t < to
      ensures LatestAt(ordered, t) == active
    {
      InForce(ordered, i, t);
    }
  }

  lemma {:induction false} SameIntegral(os: seq<Observation>, from: int, to: int)
    ensures Integral(ByTime(Usable(os)), from, to) == Integral(os, from, to)
    ensures Covered(ByTime(Usable(os)), from, to) == Covered(os, from, to)
    decreases (to - from)
  {
    if from < to {
      SameIntegral(os, from, to - 1);
      OrderedIsSame(os, to - 1);
    }
  }

  /** The average is exact: in lowest terms, and times the covered seconds it is the integral of the
      price. The whole window is covered exactly if something usable was observed by its start. */
  method FixedWindowTwap(os: seq<Observation>, start: nat, end: nat) returns (result: Result<Twap, TwapError>)
    ensures result.Failure? <==> end <= start
    ensures result.Success? ==>
      var twap, covered := result.value, Covered(os, start, end);
      && twap.windowSeconds == end - start
      && (twap.InsufficientObservations? <==> covered == 0)
      && (twap.Average? ==>
            && twap.coverageSeconds == covered
            && ExactAverage(twap.numerator, twap.denominator, covered, Integral(os, start, end))
            && (twap.available <==> LatestAt(os, start).Some?))
  {
    if end <= start {
      return Failure(EmptyWindow);
    }
    var sum := WeightedSum(ByTimeOf(os), start, end);
    SameIntegral(os, start, end);
    CoveredFromStart(os, start, end);
    if sum.covered == 0 {
      return Success(InsufficientObservations(end - start));
    }
    var numerator, denominator := DividedBy(sum.numerator, sum.denominator, sum.covered);
    result := Success(Average(sum.covered == end - start, numerator, denominator, sum.covered, end - start));
  }

  /** In lowest terms, and times the covered seconds the total. */
  ghost predicate ExactAverage(numerator: int, denominator: int, covered: nat, total: real) {
    LowestTerms(numerator, denominator) && Value(numerator, denominator) * covered as real == total
  }

  method DividedBy(n: int, d: int, covered: nat) returns (numerator: int, denominator: int)
    requires n >= 0 && d > 0 && covered > 0
    ensures ExactAverage(numerator, denominator, covered, Value(n, d))
  {
    AtLeast(d, covered);
    numerator, denominator := Reduce(n, d * covered);
    AverageOf(n, d, covered, numerator, denominator);
  }

  function ByTimeOf(os: seq<Observation>): (ordered: seq<Observation>)
    ensures InOrder(ordered)
  {
    OrderedIsSame(os, 0);
    ByTime(Usable(os))
  }

  lemma AverageOf(n: int, d: int, covered: nat, numerator: int, denominator: int)
    requires n >= 0 && d > 0 && covered > 0 && d * covered > 0
    requires (numerator, denominator) == Reduced(n, d * covered)
    ensures LowestTerms(numerator, denominator)
    ensures Value(numerator, denominator) * covered as real == Value(n, d)
  {
    ReducedIsSame(n, d * covered);
    SameValue(numerator, denominator, n, d * covered);
    var v := Value(n, d * covered);
    ValueTimes(n, d * covered);
    assert n as real == (v * covered as real) * d as real by {
      assert (d * covered) as real == d as real * covered as real;
      assert v * (d as real * covered as real) == (v * covered as real) * d as real;
    }
    ValueIs(n, d, v * covered as real);
  }

  lemma QuotientWithin(average: real, sum: real, count: nat, low: real, high: real)
    requires count > 0 && average * count as real == sum && Within(sum, count, low, high)
    ensures low <= average <= high
  {
    Scaled(average, low, count as real);
    Scaled(high, average, count as real);
  }

  /** The average lies between the lowest and the highest price that was in force. */
  lemma AverageWithin(os: seq<Observation>, start: nat, end: nat, average: real, low: real, high: real)
    requires Covered(os, start, end) > 0 && average * Covered(os, start, end) as real == Integral(os, start, end)
    requires PricesWithin(os, start, end, low, high)
    ensures low <= average <= high
  {
    IntegralWithin(os, start, end, low, high);
    QuotientWithin(average, Integral(os, start, end), Covered(os, start, end), low, high);
  }
}
