/** Contiguous period buckets ending with the one containing a date, and the flows that fall in each. */
module Buckets {
  import opened Prelude
  import opened Sums
  import opened Seqs
  import opened Calendar
  import opened Ledger
  import opened Flows

  type Range = (Date, Date)

  /** The range of the period `back` steps before the one containing `asOf`. */
  function RangeBack(p: Period, asOf: Date, back: nat): Range {
    if back == 0 then p.RangeContaining(asOf) else p.RangeContaining(RangeBack(p, asOf, back - 1).0 - 1)
  }

  predicate IsNewestFirst(ranges: seq<Range>, p: Period, asOf: Date) {
    forall k :: 0 <= k < |ranges| ==> ranges[k] == RangeBack(p, asOf, k)
  }

  lemma OneMoreBack(ranges: seq<Range>, p: Period, asOf: Date)
    requires ranges != [] && IsNewestFirst(ranges, p, asOf)
    ensures IsNewestFirst(ranges + [p.RangeContaining(ranges[|ranges| - 1].0 - 1)], p, asOf)
  {
    assert RangeBack(p, asOf, |ranges|) == p.RangeContaining(RangeBack(p, asOf, |ranges| - 1).0 - 1);
  }

  lemma ReversedAreBuckets(ranges: seq<Range>, p: Period, asOf: Date)
    requires IsNewestFirst(ranges, p, asOf)
    ensures IsBucketRanges(Reversed(ranges), p, |ranges|, asOf)
  {
    hide Reversed, RangeBack;
  }

  /** Oldest first, `count` ranges ending with the one containing `asOf`. */
  method BucketRanges(p: Period, count: nat, asOf: Date) returns (ranges: seq<Range>)
    requires count > 0
    ensures IsBucketRanges(ranges, p, count, asOf)
  {
    var newestFirst: seq<Range> := [p.RangeContaining(asOf)];
    assert IsNewestFirst(newestFirst, p, asOf);
    hide *;
    var prevStart := newestFirst[0].0;
    for i := 1 to count
      invariant |newestFirst| == i && IsNewestFirst(newestFirst, p, asOf)
      invariant prevStart == newestFirst[i - 1].0
    {
      OneMoreBack(newestFirst, p, asOf);
      var prev := p.RangeContaining(prevStart - 1);
      newestFirst := newestFirst + [prev];
      prevStart := prev.0;
    }
    ReversedAreBuckets(newestFirst, p, asOf);
    ranges := Reversed(newestFirst);
  }

  function Reversed(s: seq<Range>): (r: seq<Range>)
    ensures |r| == |s|
    ensures forall k :: 0 <= k < |s| ==> r[k] == s[|s| - 1 - k]
  {
    if s == [] then [] else Reversed(s[1..]) + [s[0]]
  }

  predicate IsBucketRanges(ranges: seq<Range>, p: Period, count: nat, asOf: Date) {
    |ranges| == count && forall k :: 0 <= k < count ==> ranges[k] == RangeBack(p, asOf, count - 1 - k)
  }

  function Ranges(p: Period, count: nat, asOf: Date): (ranges: seq<Range>)
    ensures IsBucketRanges(ranges, p, count, asOf)
  {
    seq(count, k requires 0 <= k < count => RangeBack(p, asOf, count - 1 - k))
  }

  predicate Holds(r: Range, date: Date) {
    r.0 <= date < r.1
  }

  /**
   * What every bucketing has: exactly `count` ranges, oldest first, the last containing `asOf`,
   * leaving no day uncovered between the first start and the last end.
   */
  lemma RangesCover(ranges: seq<Range>, p: Period, count: nat, asOf: Date)
    requires p.Valid() && count > 0 && IsBucketRanges(ranges, p, count, asOf)
    ensures Holds(ranges[count - 1], asOf)
    ensures forall k :: 0 <= k < count ==> ranges[k].0 < ranges[k].1
    ensures forall k :: 0 < k < count ==> ranges[k - 1].0 < ranges[k].0 <= ranges[k - 1].1
  {
    if p.Grid? {
      assert p.SnapsInside(asOf);
    }
    forall k | 0 < k < count ensures ranges[k - 1].0 < ranges[k].0 <= ranges[k - 1].1 {
      assert ranges[k - 1] == p.RangeContaining(ranges[k].0 - 1);
      if p.Grid? {
        assert p.SnapsInside(ranges[k].0 - 1);
      }
    }
  }

  ghost predicate Contiguous(ranges: seq<Range>) {
    forall k :: 0 < k < |ranges| ==> ranges[k - 1].1 == ranges[k].0
  }

  /** A custom period lasts one day at each of the starts before `asOf` it is asked for. */
  ghost predicate OneDaySteps(p: Period, count: nat, asOf: Date) {
    forall date :: asOf - count < date < asOf ==> p.Advance(date) == date + 1
  }

  lemma {:induction false} CustomRangeBack(p: Period, asOf: Date, back: nat)
    requires p.Custom?
    ensures RangeBack(p, asOf, back) == (asOf - back, p.Advance(asOf - back))
  {
    if back == 0 {
    } else {
      CustomRangeBack(p, asOf, back - 1);
    }
  }

  lemma {:induction false} GridRangeBack(p: Period, asOf: Date, back: nat)
    requires p.Grid? && p.Valid()
    ensures exists date :: RangeBack(p, asOf, back) == p.RangeContaining(date)
  {
    if back == 0 {
      assert RangeBack(p, asOf, 0) == p.RangeContaining(asOf);
    } else {
      assert RangeBack(p, asOf, back) == p.RangeContaining(RangeBack(p, asOf, back - 1).0 - 1);
    }
  }

  /** Buckets are contiguous exactly for grid periods, single buckets, and custom periods stepping by one day. */
  lemma ContiguousIff(ranges: seq<Range>, p: Period, count: nat, asOf: Date)
    requires p.Valid() && count > 0 && IsBucketRanges(ranges, p, count, asOf)
    ensures Contiguous(ranges) <==> p.Grid? || OneDaySteps(p, count, asOf)
  {
    if p.Grid? {
      forall k | 0 < k < |ranges| ensures ranges[k - 1].1 == ranges[k].0 {
        GridRangeBack(p, asOf, count - 1 - k);
        var date :| RangeBack(p, asOf, count - 1 - k) == p.RangeContaining(date);
        GridRangesMeet(p, date);
      }
    } else {
      CustomRanges(ranges, p, count, asOf);
      if OneDaySteps(p, count, asOf) {
        forall k | 0 < k < |ranges| ensures ranges[k - 1].1 == ranges[k].0 {
          assert ranges[k - 1].0 == asOf - count + k;
        }
      }
      if Contiguous(ranges) {
        forall date | asOf - count < date < asOf ensures p.Advance(date) == date + 1 {
          var k := date - (asOf - count);
          assert ranges[k - 1].0 == date && ranges[k - 1].1 == ranges[k].0;
        }
      }
    }
  }

  lemma CustomRanges(ranges: seq<Range>, p: Period, count: nat, asOf: Date)
    requires p.Custom? && IsBucketRanges(ranges, p, count, asOf)
    ensures forall k :: 0 <= k < count ==> ranges[k] == (asOf - count + k + 1, p.Advance(asOf - count + k + 1))
  {
    forall k | 0 <= k < count ensures ranges[k] == (asOf - count + k + 1, p.Advance(asOf - count + k + 1)) {
      CustomRangeBack(p, asOf, count - 1 - k);
    }
  }

  /** Two weekly custom buckets overlap on six days. */
  lemma CustomBucketsOverlap()
    ensures var p := Custom((date: Date) => date + 7);
            p.Valid() && RangeBack(p, 100, 1) == (99, 106) && RangeBack(p, 100, 0) == (100, 107)
  {
    var p := Custom((date: Date) => date + 7);
    CustomRangeBack(p, 100, 1);
  }

  // ----- Which bucket a transaction lands in -----

  /** The first range holding `date`, or the number of ranges. */
  function BucketOf(ranges: seq<Range>, date: Date): (k: nat)
    ensures k <= |ranges|
    ensures forall j :: 0 <= j < k ==> !Holds(ranges[j], date)
    ensures k < |ranges| ==> Holds(ranges[k], date)
  {
    if ranges == [] || Holds(ranges[0], date) then 0
    else
      var k := BucketOf(ranges[1..], date);
      assert forall j :: 1 <= j < k + 1 ==> ranges[j] == ranges[1..][j - 1];
      k + 1
  }

  function InBucket(ranges: seq<Range>, k: nat): Transaction -> bool {
    (t: Transaction) => BucketOf(ranges, t.date) == k
  }

  /** Every date from the first start to the last end lies in some bucket. */
  lemma CoveredDatesLand(ranges: seq<Range>, date: Date)
    requires ranges != [] && ranges[0].0 <= date < ranges[|ranges| - 1].1
    requires forall k :: 0 < k < |ranges| ==> ranges[k].0 <= ranges[k - 1].1
    ensures BucketOf(ranges, date) < |ranges|
  {
    var k := 0;
    while k + 1 < |ranges| && ranges[k].1 <= date
      invariant 0 <= k < |ranges| && ranges[k].0 <= date
    {
      k := k + 1;
    }
    assert Holds(ranges[k], date);
  }

  /** In contiguous ranges a date lies in one range only. */
  lemma {:induction false} ContiguousRangesAreDisjoint(ranges: seq<Range>, j: nat, k: nat, date: Date)
    requires Contiguous(ranges) && forall i :: 0 <= i < |ranges| ==> ranges[i].0 < ranges[i].1
    requires j < k < |ranges| && Holds(ranges[j], date)
    ensures !Holds(ranges[k], date)
    ensures date < ranges[k].0
  {
    if j < k - 1 {
      ContiguousRangesAreDisjoint(ranges, j, k - 1, date);
    }
  }

  /** Exactly one range holds `date`. */
  ghost predicate HeldOnce(ranges: seq<Range>, date: Date) {
    exists k :: 0 <= k < |ranges| && Holds(ranges[k], date) && forall j :: 0 <= j < |ranges| && j != k ==>
      !Holds(ranges[j], date)
  }

  /** Every covered date lies in one range only, exactly when the ranges are contiguous. */
  lemma HeldOnceIffContiguous(ranges: seq<Range>, p: Period, count: nat, asOf: Date)
    requires p.Valid() && count > 0 && IsBucketRanges(ranges, p, count, asOf)
    ensures (forall date :: ranges[0].0 <= date < ranges[count - 1].1 ==> HeldOnce(ranges, date)) <==>
            p.Grid? || OneDaySteps(p, count, asOf)
  {
    RangesCover(ranges, p, count, asOf);
    ContiguousIff(ranges, p, count, asOf);
    hide IsBucketRanges;
    if Contiguous(ranges) {
      forall date | ranges[0].0 <= date < ranges[count - 1].1 ensures HeldOnce(ranges, date) {
        CoveredDatesLand(ranges, date);
        var k := BucketOf(ranges, date);
        forall j | k < j < |ranges| ensures !Holds(ranges[j], date) {
          ContiguousRangesAreDisjoint(ranges, k, j, date);
        }
      }
    } else {
      var k :| 0 < k < |ranges| && ranges[k - 1].1 != ranges[k].0;
      StartsAscend(ranges, k);
      assert Holds(ranges[k - 1], ranges[k].0) && Holds(ranges[k], ranges[k].0);
      assert !HeldOnce(ranges, ranges[k].0);
    }
  }

  lemma StartsAscend(ranges: seq<Range>, k: nat)
    requires k < |ranges| && forall i :: 0 <= i < |ranges| ==> ranges[i].0 < ranges[i].1
    requires forall i :: 0 < i < |ranges| ==> ranges[i - 1].0 < ranges[i].0
    ensures ranges[0].0 <= ranges[k].0 < ranges[|ranges| - 1].1
  {
    for i := 0 to k
      invariant ranges[0].0 <= ranges[i].0
    {
    }
    for i := k to |ranges| - 1
      invariant ranges[k].0 <= ranges[i].0
    {
    }
  }

  datatype PostingBucket = PostingBucket(start: Date, end: Date, inflow: Decimal, outflow: Decimal)

  /** What each bucket holds: the flows of the windowed transactions landing in it. */
  ghost predicate AreBuckets(buckets: seq<PostingBucket>, ranges: seq<Range>, window: seq<Transaction>, c: Code) {
    |buckets| == |ranges| && forall k :: 0 <= k < |ranges| ==> buckets[k] == BucketOver(ranges, window, c, k)
  }

  function BucketOver(ranges: seq<Range>, window: seq<Transaction>, c: Code, k: nat): PostingBucket
    requires k < |ranges|
  {
    var landed := Filter(window, InBucket(ranges, k));
    PostingBucket(ranges[k].0, ranges[k].1, Sum(landed, NetIn(c)), Sum(landed, NetOut(c)))
  }

  function Window(stream: seq<Transaction>, ranges: seq<Range>): seq<Transaction>
    requires ranges != []
  {
    Filter(stream, DatedIn(ranges[0].0, ranges[|ranges| - 1].1))
  }

  /** The accumulators hold, bucket by bucket, the flows of the transactions seen so far. */
  ghost predicate Accumulates(acc: seq<FlowTotals>, ranges: seq<Range>, seen: seq<Transaction>, c: Code)
    reads acc
  {
    && |acc| == |ranges|
    && forall k :: 0 <= k < |acc| ==> FlowsAre(acc[k], Filter(seen, InBucket(ranges, k)), c)
  }

  method FreshAccumulators(ranges: seq<Range>, c: Code) returns (acc: seq<FlowTotals>)
    ensures Accumulates(acc, ranges, [], c)
    ensures forall j, k :: 0 <= j < k < |acc| ==> acc[j] != acc[k]
    ensures forall k :: 0 <= k < |acc| ==> fresh(acc[k])
  {
    acc := [];
    for i := 0 to |ranges|
      invariant |acc| == i
      invariant forall k :: 0 <= k < i ==> fresh(acc[k]) && FlowsAre(acc[k], [], c)
      invariant forall j, k :: 0 <= j < k < i ==> acc[j] != acc[k]
    {
      var f := new FlowTotals();
      NoFlows(f, c);
      acc := acc + [f];
    }
  }

  /** Folds one transaction into the first bucket holding its date. */
  method Distribute(acc: seq<FlowTotals>, ranges: seq<Range>, t: Transaction, c: Code, ghost seen: seq<Transaction>)
    requires Accumulates(acc, ranges, seen, c)
    requires forall j, k :: 0 <= j < k < |acc| ==> acc[j] != acc[k]
    modifies acc
    ensures Accumulates(acc, ranges, seen + [t], c)
  {
    hide FlowsAre, BucketOf;
    var k := BucketOf(ranges, t.date);
    forall j: nat {
      FilterAppend(seen, t, InBucket(ranges, j));
    }
    if k < |acc| {
      FoldTransaction(acc[k], t, c, Filter(seen, InBucket(ranges, k)));
    }
  }

  /** Inflow and outflow per bucket over the accounts in `ids`, each transaction in one bucket by its date. */
  method PostingBuckets(ledger: seq<Transaction>, ids: set<AccountId>, c: Code, p: Period, count: nat, asOf: Date)
    returns (buckets: seq<PostingBucket>)
    requires count > 0
    ensures var ranges := Ranges(p, count, asOf);
            AreBuckets(buckets, ranges, Window(InScope(ledger, ids), ranges), c)
  {
    var bounds := BucketRanges(p, count, asOf);
    RangesAre(bounds, p, count, asOf);
    hide Accumulates, AreBuckets, Ranges, IsBucketRanges, InScope, Filter;
    var stream := Window(InScope(ledger, ids), bounds);
    var acc := FreshAccumulators(bounds, c);
    for i := 0 to |stream|
      invariant Accumulates(acc, bounds, stream[..i], c)
    {
      assert stream[..i + 1] == stream[..i] + [stream[i]];
      Distribute(acc, bounds, stream[i], c, stream[..i]);
    }
    assert stream[..|stream|] == stream;
    buckets := ReadBuckets(acc, bounds, c, stream);
  }

  lemma RangesAre(ranges: seq<Range>, p: Period, count: nat, asOf: Date)
    requires IsBucketRanges(ranges, p, count, asOf)
    ensures ranges == Ranges(p, count, asOf)
  {
    hide RangeBack;
  }

  /** One bucket per range, from its accumulator. */
  method ReadBuckets(acc: seq<FlowTotals>, ranges: seq<Range>, c: Code, ghost window: seq<Transaction>)
    returns (buckets: seq<PostingBucket>)
    requires Accumulates(acc, ranges, window, c)
    ensures AreBuckets(buckets, ranges, window, c)
  {
    hide Filter, Sum;
    buckets := [];
    for k := 0 to |ranges|
      invariant |buckets| == k && forall j :: 0 <= j < k ==> buckets[j] == BucketOver(ranges, window, c, j)
    {
      assert FlowsAre(acc[k], Filter(window, InBucket(ranges, k)), c);
      buckets := buckets + [PostingBucket(ranges[k].0, ranges[k].1, acc[k].inflow, acc[k].outflow)];
    }
  }

  // ----- Conservation -----

  function BucketInflow(): PostingBucket -> real {
    (b: PostingBucket) => b.inflow
  }

  function BucketOutflow(): PostingBucket -> real {
    (b: PostingBucket) => b.outflow
  }

  function BelowBucket(ranges: seq<Range>, n: nat): Transaction -> bool {
    (t: Transaction) => BucketOf(ranges, t.date) < n
  }

  /** The first `n` buckets together hold the flows of the transactions landing in them. */
  lemma {:induction false} BucketsAddUp(buckets: seq<PostingBucket>, ranges: seq<Range>, window: seq<Transaction>,
                                        c: Code, n: nat)
    requires AreBuckets(buckets, ranges, window, c) && n <= |ranges|
    ensures Sum(buckets[..n], BucketInflow()) == Sum(Filter(window, BelowBucket(ranges, n)), NetIn(c))
    ensures Sum(buckets[..n], BucketOutflow()) == Sum(Filter(window, BelowBucket(ranges, n)), NetOut(c))
  {
    hide NetIn, NetOut, Filter;
    if n == 0 {
      FilterNothing(window, BelowBucket(ranges, 0));
    } else {
      BucketsAddUp(buckets, ranges, window, c, n - 1);
      assert buckets[..n] == buckets[..n - 1] + [buckets[n - 1]];
      SumAppend(buckets[..n - 1], buckets[n - 1], BucketInflow());
      SumAppend(buckets[..n - 1], buckets[n - 1], BucketOutflow());
      BelowSplits(ranges, window, n, NetIn(c));
      BelowSplits(ranges, window, n, NetOut(c));
    }
  }

  lemma BelowSplits(ranges: seq<Range>, window: seq<Transaction>, n: nat, f: Transaction -> real)
    requires n > 0
    ensures Sum(Filter(window, BelowBucket(ranges, n)), f) ==
            Sum(Filter(window, BelowBucket(ranges, n - 1)), f) + Sum(Filter(window, InBucket(ranges, n - 1)), f)
  {
    FilterSplits(window, BelowBucket(ranges, n), BelowBucket(ranges, n - 1), InBucket(ranges, n - 1), f);
  }

  /**
   * Nothing is lost or counted twice: each windowed transaction lands in exactly one bucket, and
   * the buckets' flows sum to the period statistics over their union, contiguous or not.
   */
  lemma BucketsConserve(buckets: seq<PostingBucket>, ranges: seq<Range>, stream: seq<Transaction>, c: Code,
                        p: Period, count: nat, asOf: Date)
    requires p.Valid() && count > 0 && IsBucketRanges(ranges, p, count, asOf)
    requires AreBuckets(buckets, ranges, Window(stream, ranges), c)
    ensures forall i :: 0 <= i < |Window(stream, ranges)| ==> BucketOf(ranges, Window(stream, ranges)[i].date) < count
    ensures var stats := StatsOf(stream, c, ranges[0].0, ranges[count - 1].1);
            Sum(buckets, BucketInflow()) == stats.inflow && Sum(buckets, BucketOutflow()) == stats.outflow
  {
    RangesCover(ranges, p, count, asOf);
    WindowLands(stream, ranges);
    AllBucketsAddUp(buckets, ranges, Window(stream, ranges), c);
  }

  lemma AllBucketsAddUp(buckets: seq<PostingBucket>, ranges: seq<Range>, window: seq<Transaction>, c: Code)
    requires AreBuckets(buckets, ranges, window, c)
    requires forall i :: 0 <= i < |window| ==> BucketOf(ranges, window[i].date) < |ranges|
    ensures Sum(buckets, BucketInflow()) == Sum(window, NetIn(c))
    ensures Sum(buckets, BucketOutflow()) == Sum(window, NetOut(c))
  {
    var n := |ranges|;
    BucketsAddUp(buckets, ranges, window, c, n);
    FilterEverything(window, BelowBucket(ranges, n));
    assert buckets[..n] == buckets;
  }

  lemma WindowLands(stream: seq<Transaction>, ranges: seq<Range>)
    requires ranges != [] && forall k :: 0 < k < |ranges| ==> ranges[k].0 <= ranges[k - 1].1
    ensures forall i :: 0 <= i < |Window(stream, ranges)| ==>
            BucketOf(ranges, Window(stream, ranges)[i].date) < |ranges|
  {
    FilterMembers(stream, DatedIn(ranges[0].0, ranges[|ranges| - 1].1));
    forall i | 0 <= i < |Window(stream, ranges)| ensures BucketOf(ranges, Window(stream, ranges)[i].date) < |ranges| {
      assert Window(stream, ranges)[i] in Window(stream, ranges);
      CoveredDatesLand(ranges, Window(stream, ranges)[i].date);
    }
  }
}
