/** Every posting of a window valued under one commodity decision. */
module WindowValues {
  import opened Prelude
  import opened Sums
  import opened Balances
  import opened Timeline
  import opened Postings
  import opened Valuation

  datatype ValuedPosting = ValuedPosting(posting: Posting, value: Option<Decimal>)

  datatype WindowValuation = WindowValuation(postings: seq<ValuedPosting>, commodity: Option<Code>, unvalued: Balances)

  /** The target commodity of the first period that has a target. */
  function FirstTarget(periods: seq<ResolvedPeriod>): Option<Code> {
    if periods == [] then None
    else if periods[0].revision.target.Some? then Some(periods[0].revision.target.value.commodity)
    else FirstTarget(periods[1..])
  }

  function Amounts(postings: seq<Posting>): (amounts: seq<Amount>)
    ensures |amounts| == |postings| && forall i :: 0 <= i < |postings| ==> amounts[i] == postings[i].amount
  {
    seq(|postings|, i requires 0 <= i < |postings| => postings[i].amount)
  }

  function All(buckets: seq<seq<Posting>>): seq<Posting> {
    if buckets == [] then [] else All(buckets[..|buckets| - 1]) + buckets[|buckets| - 1]
  }

  /** The window's one commodity: its first target's, else the dominant one over every posting. */
  ghost function WindowCommodity(periods: seq<ResolvedPeriod>, buckets: seq<seq<Posting>>): Option<Code> {
    if FirstTarget(periods).Some? then FirstTarget(periods) else Dominant(Groups(Amounts(All(buckets))))
  }

  function Value(fx: Rates, rev: Revision, commodity: Option<Code>, p: Posting): ValuedPosting {
    ValuedPosting(p, ValueIn(fx, rev, commodity, p.amount))
  }

  function ValueBucket(fx: Rates, rev: Revision, commodity: Option<Code>,
                       bucket: seq<Posting>): (valued: seq<ValuedPosting>)
    ensures |valued| == |bucket|
  {
    if bucket == [] then []
    else ValueBucket(fx, rev, commodity, bucket[..|bucket| - 1]) + [Value(fx, rev, commodity, bucket[|bucket| - 1])]
  }

  /** Each period's bucket valued under that period's revision. */
  function ValueBuckets(fx: Rates, periods: seq<ResolvedPeriod>, buckets: seq<seq<Posting>>,
                        commodity: Option<Code>): seq<ValuedPosting>
    requires |periods| == |buckets|
  {
    if periods == [] then []
    else
      var last := |periods| - 1;
      ValueBuckets(fx, periods[..last], buckets[..last], commodity)
      + ValueBucket(fx, periods[last].revision, commodity, buckets[last])
  }

  /** The native amounts without a value. */
  function Leftovers(postings: seq<ValuedPosting>): Balances {
    if postings == [] then map[]
    else
      var rest, last := Leftovers(postings[..|postings| - 1]), postings[|postings| - 1];
      if last.value.None? then AddAmount(rest, last.posting.amount) else rest
  }

  method AllAmounts(buckets: seq<seq<Posting>>) returns (amounts: seq<Amount>)
    ensures amounts == Amounts(All(buckets))
  {
    amounts := [];
    for n := 0 to |buckets|
      invariant amounts == Amounts(All(buckets[..n]))
    {
      assert buckets[..n + 1][..n] == buckets[..n];
      amounts := amounts + Amounts(buckets[n]);
    }
    assert buckets[..|buckets|] == buckets;
  }

  method FindTarget(periods: seq<ResolvedPeriod>) returns (commodity: Option<Code>)
    ensures commodity == FirstTarget(periods)
  {
    commodity := None;
    for n := 0 to |periods|
      invariant commodity.None? && FirstTarget(periods) == FirstTarget(periods[n..])
    {
      if periods[n].revision.target.Some? {
        return Some(periods[n].revision.target.value.commodity);
      }
    }
  }

  method ValueWindow(fx: Rates, periods: seq<ResolvedPeriod>, buckets: seq<seq<Posting>>)
    returns (valuation: WindowValuation)
    requires |periods| == |buckets|
    ensures valuation.commodity == WindowCommodity(periods, buckets)
    ensures valuation.postings == ValueBuckets(fx, periods, buckets, valuation.commodity)
    ensures valuation.unvalued == Leftovers(valuation.postings)
  {
    hide ValueBucket, Leftovers, Dominant, Groups, All;
    assert Leftovers([]) == map[] by { NoLeftovers(); }
    var commodity := FindTarget(periods);
    if commodity.None? {
      var amounts := AllAmounts(buckets);
      var tracking := CommodityGroups(amounts);
      commodity := DominantCommodity(tracking);
    }
    var postings: seq<ValuedPosting> := [];
    var unvalued: Balances := map[];
    for n := 0 to |periods|
      invariant postings == ValueBuckets(fx, periods[..n], buckets[..n], commodity)
      invariant unvalued == Leftovers(postings)
    {
      assert periods[..n + 1][..n] == periods[..n] && buckets[..n + 1][..n] == buckets[..n];
      postings, unvalued := PushBucket(fx, periods[n].revision, commodity, buckets[n], postings, unvalued);
    }
    assert periods[..|periods|] == periods && buckets[..|buckets|] == buckets;
    valuation := WindowValuation(postings, commodity, unvalued);
  }

  lemma NoLeftovers()
    ensures Leftovers([]) == map[]
  {
  }

  method PushBucket(fx: Rates, rev: Revision, commodity: Option<Code>, bucket: seq<Posting>,
                    before: seq<ValuedPosting>, unvalued0: Balances)
    returns (postings: seq<ValuedPosting>, unvalued: Balances)
    requires unvalued0 == Leftovers(before)
    ensures postings == before + ValueBucket(fx, rev, commodity, bucket)
    ensures unvalued == Leftovers(postings)
  {
    postings, unvalued := before, unvalued0;
    for k := 0 to |bucket|
      invariant postings == before + ValueBucket(fx, rev, commodity, bucket[..k])
      invariant unvalued == Leftovers(postings)
    {
      assert bucket[..k + 1][..k] == bucket[..k];
      var value := ValueIn(fx, rev, commodity, bucket[k].amount);
      LeftoversAppend(postings, ValuedPosting(bucket[k], value));
      if value.None? {
        unvalued := AddAmount(unvalued, bucket[k].amount);
      }
      postings := postings + [ValuedPosting(bucket[k], value)];
    }
    assert bucket[..|bucket|] == bucket;
  }

  lemma LeftoversAppend(postings: seq<ValuedPosting>, p: ValuedPosting)
    ensures Leftovers(postings + [p]) == if p.value.None? then AddAmount(Leftovers(postings), p.posting.amount) else Leftovers(postings)
  {
    assert (postings + [p])[..|postings|] == postings;
  }

  // ----- What the valuation keeps -----

  function Plain(valued: seq<ValuedPosting>): (postings: seq<Posting>)
    ensures |postings| == |valued| && forall i :: 0 <= i < |valued| ==> postings[i] == valued[i].posting
  {
    seq(|valued|, i requires 0 <= i < |valued| => valued[i].posting)
  }

  lemma {:induction false} BucketKeepsPostings(fx: Rates, rev: Revision, commodity: Option<Code>, bucket: seq<Posting>)
    ensures Plain(ValueBucket(fx, rev, commodity, bucket)) == bucket
  {
    if bucket == [] {
    } else {
      BucketKeepsPostings(fx, rev, commodity, bucket[..|bucket| - 1]);
    }
  }

  /** Valuing returns each bucketed posting exactly once. */
  lemma {:induction false} EachPostingOnce(fx: Rates, periods: seq<ResolvedPeriod>, buckets: seq<seq<Posting>>,
                                           commodity: Option<Code>)
    requires |periods| == |buckets|
    ensures Plain(ValueBuckets(fx, periods, buckets, commodity)) == All(buckets)
  {
    if periods == [] {
    } else {
      var last := |periods| - 1;
      EachPostingOnce(fx, periods[..last], buckets[..last], commodity);
      BucketKeepsPostings(fx, periods[last].revision, commodity, buckets[last]);
    }
  }

  function Native(c: Code): ValuedPosting -> Decimal {
    (v: ValuedPosting) => NativeIn(c)(v.posting.amount)
  }

  function NativeWithValue(c: Code): ValuedPosting -> Decimal {
    (v: ValuedPosting) => if v.value.Some? then NativeIn(c)(v.posting.amount) else 0.0
  }

  /** Per commodity, the native amounts are the ones that were valued plus those reported unvalued. */
  lemma {:induction false} NativeIsConserved(postings: seq<ValuedPosting>, c: Code)
    ensures Sum(postings, Native(c)) == Sum(postings, NativeWithValue(c)) + Get(Leftovers(postings), c)
  {
    if postings == [] {
    } else {
      var init, last := postings[..|postings| - 1], postings[|postings| - 1];
      NativeIsConserved(init, c);
      assert postings == init + [last];
      LeftoversAppend(init, last);
      SumAppend(init, last, Native(c));
      SumAppend(init, last, NativeWithValue(c));
      assert Get(AddAmount(Leftovers(init), last.posting.amount), c) ==
             Get(Leftovers(init), c) + NativeIn(c)(last.posting.amount);
    }
  }

  function ValueOr(): ValuedPosting -> Decimal {
    (v: ValuedPosting) => if v.value.Some? then v.value.value else 0.0
  }

  /** The sum of the values there are. */
  function Actuals(postings: seq<ValuedPosting>): Decimal {
    Sum(postings, ValueOr())
  }

  /** One bucket: values sum to the fold's total, and leave the fold's leftovers. */
  lemma {:induction false} BucketIsFold(fx: Rates, rev: Revision, commodity: Option<Code>, bucket: seq<Posting>)
    ensures Actuals(ValueBucket(fx, rev, commodity, bucket)) == Total(fx, rev, commodity, Amounts(bucket))
    ensures Leftovers(ValueBucket(fx, rev, commodity, bucket)) == Unvalued(fx, rev, commodity, Amounts(bucket))
  {
    if bucket == [] {
    } else {
      var init, last := bucket[..|bucket| - 1], bucket[|bucket| - 1];
      BucketIsFold(fx, rev, commodity, init);
      assert Amounts(bucket)[..|init|] == Amounts(init);
      var valued := Value(fx, rev, commodity, last);
      SumAppend(ValueBucket(fx, rev, commodity, init), valued, ValueOr());
      LeftoversAppend(ValueBucket(fx, rev, commodity, init), valued);
    }
  }

  /** A window of one period values as that period folds: same total, same commodity, same leftovers. */
  lemma OnePeriodAgreesWithFold(fx: Rates, p: ResolvedPeriod, bucket: seq<Posting>)
    ensures var commodity := WindowCommodity([p], [bucket]);
            var postings := ValueBuckets(fx, [p], [bucket], commodity);
            PeriodActuals(Actuals(postings), commodity, Leftovers(postings)) ==
              ActualsOf(fx, p.revision, Amounts(bucket))
  {
    var commodity, amounts := WindowCommodity([p], [bucket]), Amounts(bucket);
    OneBucket(fx, p, bucket, commodity);
    BucketIsFold(fx, p.revision, commodity, bucket);
    hide ValueBucket, ValueBuckets, Leftovers, Actuals, Total, Unvalued, All, Dominant, Groups;
    assert FirstTarget([p][1..]) == None;
    if p.revision.target.Some? {
      TargetIgnoresDominant(fx, p.revision, commodity, Dominant(Groups(amounts)), amounts);
    }
  }

  lemma OneBucket(fx: Rates, p: ResolvedPeriod, bucket: seq<Posting>, commodity: Option<Code>)
    ensures ValueBuckets(fx, [p], [bucket], commodity) == ValueBucket(fx, p.revision, commodity, bucket)
    ensures All([bucket]) == bucket
  {
    assert [p][..0] == [] && [bucket][..0] == [];
    assert ValueBuckets(fx, [], [], commodity) == [];
    assert All([]) == [];
  }
}
