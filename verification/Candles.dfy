/** Candlesticks: usable observations by bucket, with exact prices compared by cross multiplication. */
module Candles {
  import opened Records
  import opened Integers
  import opened Ordering
  import opened Fractions
  import opened Twap

  datatype Candle = Candle(bucketStart: int, open: Observation, high: Observation, low: Observation, close: Observation, observations: nat)

  datatype CandleError = EmptyBucketSize

  /** Which bucket an observation falls into. */
  type Bucketing = Observation -> int

  function BySize(size: int): Bucketing
    requires size > 0
  {
    (o: Observation) => o.timestamp / size * size
  }

  /** The usable observations of a bucket, as listed. */
  function InBucket(os: seq<Observation>, bucket: Bucketing, start: int): seq<Observation> {
    if os == [] then []
    else
      var last := os[|os| - 1];
      InBucket(os[..|os| - 1], bucket, start) + if last.denominator > 0 && bucket(last) == start then [last] else []
  }

  predicate HasBucket(os: seq<Observation>, bucket: Bucketing, start: int) {
    exists i :: 0 <= i < |os| && os[i].denominator > 0 && bucket(os[i]) == start
  }

  /** Below in price, both denominators being positive. */
  predicate Cheaper(x: Observation, y: Observation) {
    x.numerator * y.denominator < y.numerator * x.denominator
  }

  function PriceAt(x: Observation): real
    requires x.denominator > 0
  {
    Value(x.numerator, x.denominator)
  }

  /** What a candle says about the observations it stands for. */
  ghost predicate Describes(entries: seq<Observation>, c: Candle) {
    && c.observations == |entries| > 0
    && (forall o :: o in entries ==> o.denominator > 0)
    && c.open in entries && c.close in entries && c.low in entries && c.high in entries
    && (forall o :: o in entries ==> c.open.timestamp <= o.timestamp <= c.close.timestamp)
    && (forall o :: o in entries ==> PriceAt(c.low) <= PriceAt(o) <= PriceAt(c.high))
  }

  function Starts(cs: seq<Candle>): seq<int> {
    seq(|cs|, i requires 0 <= i < |cs| => cs[i].bucketStart)
  }

  function Counted(cs: seq<Candle>): nat {
    if cs == [] then 0 else Counted(cs[..|cs| - 1]) + cs[|cs| - 1].observations
  }

  ghost predicate AreCandles(os: seq<Observation>, size: int, cs: seq<Candle>)
    requires size > 0
  {
    && Ascending(Starts(cs))
    && (forall s :: s in Starts(cs) <==> HasBucket(os, BySize(size), s))
    && (forall i :: 0 <= i < |cs| ==>
          AlignedTo(cs[i].bucketStart, size) && Describes(InBucket(os, BySize(size), cs[i].bucketStart), cs[i]))
  }

  ghost predicate AlignedTo(start: int, size: int)
    requires size > 0
  {
    start % size == 0
  }

  // ---------------------------------------------------------------- collecting

  lemma {:induction false} InBucketHolds(os: seq<Observation>, bucket: Bucketing, start: int, o: Observation)
    ensures o in InBucket(os, bucket, start) <==> o in os && o.denominator > 0 && bucket(o) == start
    ensures InBucket(os, bucket, start) == [] <==> !HasBucket(os, bucket, start)
  {
    if os != [] {
      var front := os[..|os| - 1];
      InBucketHolds(front, bucket, start, o);
      assert os == front + [os[|os| - 1]];
      assert forall i :: 0 <= i < |front| ==> front[i] == os[i];
    }
  }

  lemma Aligned(t: nat, size: int)
    requires size > 0
    ensures (t / size * size) % size == 0
  {
    DivisionIs(t / size * size, size, t / size, 0);
  }

  predicate CollectedAt(os: seq<Observation>, bucket: Bucketing, buckets: map<int, seq<Observation>>, s: int) {
    Holding(buckets, s) == InBucket(os, bucket, s) && (s in buckets <==> HasBucket(os, bucket, s))
  }

  ghost predicate Collected(os: seq<Observation>, bucket: Bucketing, buckets: map<int, seq<Observation>>) {
    forall s {:trigger CollectedAt(os, bucket, buckets, s)} :: CollectedAt(os, bucket, buckets, s)
  }

  function Holding(buckets: map<int, seq<Observation>>, s: int): seq<Observation> {
    if s in buckets then buckets[s] else []
  }

  /** How one more observation changes one bucket. */
  lemma BucketGrows(os: seq<Observation>, bucket: Bucketing, o: Observation, s: int)
    ensures InBucket(os + [o], bucket, s) == InBucket(os, bucket, s) + if o.denominator > 0 && bucket(o) == s then [o] else []
    ensures HasBucket(os + [o], bucket, s) <==> InBucket(os + [o], bucket, s) != []
    ensures HasBucket(os, bucket, s) <==> InBucket(os, bucket, s) != []
  {
    assert (os + [o])[..|os|] == os;
    InBucketHolds(os, bucket, s, o);
    InBucketHolds(os + [o], bucket, s, o);
  }

  lemma CollectOne(os: seq<Observation>, bucket: Bucketing, buckets: map<int, seq<Observation>>, o: Observation)
    requires Collected(os, bucket, buckets)
    ensures Collected(os + [o], bucket,
                      if o.denominator == 0 then buckets else buckets[bucket(o) := Holding(buckets, bucket(o)) + [o]])
  {
    var b := bucket(o);
    var after := if o.denominator == 0 then buckets else buckets[b := Holding(buckets, b) + [o]];
    forall s
      ensures CollectedAt(os + [o], bucket, after, s)
    {
      BucketGrows(os, bucket, o, s);
      assert CollectedAt(os, bucket, buckets, s);
    }
  }

  method Collect(os: seq<Observation>, bucket: Bucketing) returns (buckets: map<int, seq<Observation>>)
    ensures Collected(os, bucket, buckets)
  {
    buckets := map[];
    for i := 0 to |os|
      invariant Collected(os[..i], bucket, buckets)
    {
      CollectOne(os[..i], bucket, buckets, os[i]);
      assert os[..i + 1] == os[..i] + [os[i]];
      if os[i].denominator > 0 {
        var start := bucket(os[i]);
        buckets := buckets[start := Holding(buckets, start) + [os[i]]];
      }
    }
    assert os[..|os|] == os;
  }

  // ---------------------------------------------------------------- one candle

  lemma {:induction false} SortedHolds(os: seq<Observation>, o: Observation)
    requires forall i :: 0 <= i < |os| ==> os[i].denominator > 0
    ensures InOrder(ByTime(os)) && |ByTime(os)| == |os|
    ensures o in ByTime(os) <==> o in os
  {
    if os != [] {
      var front, last := os[..|os| - 1], os[|os| - 1];
      SortedHolds(front, o);
      InsertOrders(ByTime(front), last);
      InsertHolds(ByTime(front), last, o);
      InsertCounts(ByTime(front), last);
      assert os == front + [last];
    }
  }

  lemma {:induction false} InsertCounts(os: seq<Observation>, x: Observation)
    ensures |InsertByTime(os, x)| == |os| + 1
  {
    if os != [] && os[|os| - 1].timestamp > x.timestamp {
      InsertCounts(os[..|os| - 1], x);
    }
  }

  lemma CheaperIsLess(x: Observation, y: Observation)
    requires x.denominator > 0 && y.denominator > 0
    ensures Cheaper(x, y) <==> PriceAt(x) < PriceAt(y)
  {
  }

  /** Open and close are the ends in time, the later listed of several at once closing; low and high
      are found by cross multiplication. */
  method CandleOf(bucketStart: int, entries: seq<Observation>) returns (c: Candle)
    requires entries != [] && forall i :: 0 <= i < |entries| ==> entries[i].denominator > 0
    ensures c.bucketStart == bucketStart && Describes(entries, c)
    ensures c.open == ByTime(entries)[0] && c.close == ByTime(entries)[|ByTime(entries)| - 1]
  {
    var ordered := ByTime(entries);
    forall o
      ensures InOrder(ordered) && |ordered| == |entries|
      ensures o in ordered <==> o in entries
    {
      SortedHolds(entries, o);
    }
    var open, close := ordered[0], ordered[|ordered| - 1];
    var low, high := open, open;
    for i := 0 to |ordered|
      invariant low in ordered && high in ordered
      invariant forall k :: 0 <= k < i ==> PriceAt(low) <= PriceAt(ordered[k]) <= PriceAt(high)
      invariant PriceAt(low) <= PriceAt(open) <= PriceAt(high)
    {
      CheaperIsLess(ordered[i], low);
      CheaperIsLess(high, ordered[i]);
      if Cheaper(ordered[i], low) {
        low := ordered[i];
      }
      if Cheaper(high, ordered[i]) {
        high := ordered[i];
      }
    }
    c := Candle(bucketStart, open, high, low, close, |entries|);
  }

  // ---------------------------------------------------------------- all of them

  method CandlestickBuckets(os: seq<Observation>, size: nat) returns (result: Result<seq<Candle>, CandleError>)
    ensures result.Failure? <==> size == 0
    ensures result.Success? ==> AreCandles(os, size, result.value)
  {
    if size == 0 {
      return Failure(EmptyBucketSize);
    }
    var buckets := Collect(os, BySize(size));
    var starts := AscendingOrder(buckets.Keys);
    var candles: seq<Candle> := [];
    for i := 0 to |starts|
      invariant |candles| == i && forall k :: 0 <= k < i ==> candles[k].bucketStart == starts[k]
      invariant forall k :: 0 <= k < i ==>
                  AlignedTo(candles[k].bucketStart, size) && Describes(InBucket(os, BySize(size), candles[k].bucketStart), candles[k])
    {
      var start := starts[i];
      assert start in buckets && CollectedAt(os, BySize(size), buckets, start);
      BucketUsable(os, size, start);
      var c := CandleOf(start, buckets[start]);
      candles := candles + [c];
    }
    assert Starts(candles) == starts;
    forall s
      ensures s in starts <==> HasBucket(os, BySize(size), s)
    {
      assert CollectedAt(os, BySize(size), buckets, s);
    }
    result := Success(candles);
  }

  lemma BucketUsable(os: seq<Observation>, size: int, start: int)
    requires size > 0 && HasBucket(os, BySize(size), start)
    ensures InBucket(os, BySize(size), start) != [] && AlignedTo(start, size)
    ensures forall i :: 0 <= i < |InBucket(os, BySize(size), start)| ==> InBucket(os, BySize(size), start)[i].denominator > 0
  {
    var entries := InBucket(os, BySize(size), start);
    var k :| 0 <= k < |os| && os[k].denominator > 0 && BySize(size)(os[k]) == start;
    Aligned(os[k].timestamp, size);
    InBucketHolds(os, BySize(size), start, os[k]);
    forall i | 0 <= i < |entries|
      ensures entries[i].denominator > 0
    {
      InBucketHolds(os, BySize(size), start, entries[i]);
    }
  }

  // ---------------------------------------------------------------- what the candles amount to

  /** In each candle the open and the close lie between the low and the high. */
  lemma OpenAndCloseWithin(os: seq<Observation>, size: int, cs: seq<Candle>, i: nat)
    requires size > 0 && AreCandles(os, size, cs) && i < |cs|
    ensures cs[i].low.denominator > 0 && cs[i].high.denominator > 0 && cs[i].open.denominator > 0 && cs[i].close.denominator > 0
    ensures PriceAt(cs[i].low) <= PriceAt(cs[i].open) <= PriceAt(cs[i].high)
    ensures PriceAt(cs[i].low) <= PriceAt(cs[i].close) <= PriceAt(cs[i].high)
  {
  }

  /** The candles count every usable observation once. */
  lemma {:induction false} EveryObservationCounted(os: seq<Observation>, size: int, cs: seq<Candle>)
    requires size > 0 && AreCandles(os, size, cs)
    ensures Counted(cs) == |Usable(os)|
  {
    CountsAddUp(os, BySize(size), cs);
    forall i | 0 <= i < |os| && os[i].denominator > 0
      ensures BySize(size)(os[i]) in Starts(cs)
    {
      assert HasBucket(os, BySize(size), BySize(size)(os[i]));
    }
    UsableIsFallenIn(os, BySize(size), Starts(cs));
  }

  /** How many usable observations fall into one of the given buckets. */
  function FallenIn(os: seq<Observation>, bucket: Bucketing, starts: seq<int>): nat {
    if os == [] then 0
    else
      var last := os[|os| - 1];
      FallenIn(os[..|os| - 1], bucket, starts) + if last.denominator > 0 && bucket(last) in starts then 1 else 0
  }

  lemma {:induction false} UsableIsFallenIn(os: seq<Observation>, bucket: Bucketing, starts: seq<int>)
    requires forall i :: 0 <= i < |os| && os[i].denominator > 0 ==> bucket(os[i]) in starts
    ensures FallenIn(os, bucket, starts) == |Usable(os)|
  {
    if os != [] {
      UsableIsFallenIn(os[..|os| - 1], bucket, starts);
    }
  }

  lemma {:induction false} OneBucketMore(os: seq<Observation>, bucket: Bucketing, starts: seq<int>, s: int)
    requires s !in starts
    ensures FallenIn(os, bucket, starts + [s]) == FallenIn(os, bucket, starts) + |InBucket(os, bucket, s)|
  {
    if os != [] {
      OneBucketMore(os[..|os| - 1], bucket, starts, s);
    }
  }

  lemma {:induction false} NoBuckets(os: seq<Observation>, bucket: Bucketing)
    ensures FallenIn(os, bucket, []) == 0
  {
    if os != [] {
      NoBuckets(os[..|os| - 1], bucket);
    }
  }

  lemma {:induction false} CountsAddUp(os: seq<Observation>, bucket: Bucketing, cs: seq<Candle>)
    requires Ascending(Starts(cs))
    requires forall i :: 0 <= i < |cs| ==> cs[i].observations == |InBucket(os, bucket, cs[i].bucketStart)|
    ensures Counted(cs) == FallenIn(os, bucket, Starts(cs))
  {
    if cs == [] {
      NoBuckets(os, bucket);
      assert Starts(cs) == [];
    } else {
      var front, last := cs[..|cs| - 1], cs[|cs| - 1];
      assert Starts(cs) == Starts(front) + [last.bucketStart];
      assert Ascending(Starts(front)) by {
        assert forall i :: 0 <= i < |front| ==> Starts(front)[i] == Starts(cs)[i];
      }
      CountsAddUp(os, bucket, front);
      assert forall i :: 0 <= i < |front| ==> Starts(front)[i] < last.bucketStart by {
        assert forall i :: 0 <= i < |front| ==> Starts(front)[i] == Starts(cs)[i];
        assert Starts(cs)[|cs| - 1] == last.bucketStart;
      }
      OneBucketMore(os, bucket, Starts(front), last.bucketStart);
    }
  }
}
