/** A budget's status over a window, and the valued postings behind its actuals. */
module Status {
  import opened Prelude
  import opened Sums
  import opened Balances
  import opened Timeline
  import opened Postings
  import opened Valuation
  import opened WindowValues
  import opened Proration
  import opened RolloverFold
  import opened WindowBuckets

  /** A budget as the engine reads it: its revisions, and a target wherever a policy caps at one. */
  ghost predicate ValidBudget(revs: seq<Revision>) {
    && ValidRevisions(revs)
    && forall i :: 0 <= i < |revs| ==> WellCapped(revs[i])
  }

  /** Every posting the window matches, valued under one commodity. */
  ghost function ValuationOf(fx: Rates, revs: seq<Revision>, ledger: seq<Posting>, window: (Date, Date),
                             keys: Option<set<PostingKey>>): WindowValuation
    requires ValidRevisions(revs)
  {
    var ps := PeriodsOverlapping(revs, window.0, window.1);
    var buckets := WindowParts(ledger, ps, window, keys);
    var commodity := WindowCommodity(ps, buckets);
    var postings := ValueBuckets(fx, ps, buckets, commodity);
    WindowValuation(postings, commodity, Leftovers(postings))
  }

  datatype BudgetStatus = BudgetStatus(governing: Option<nat>, allocation: Decimal, commodity: Option<Code>, actuals: Decimal,
                                       rollover: Decimal, available: Decimal, unvalued: Balances)

  /** The total of the first `n` periods' buckets, each folded under its own revision. */
  ghost function WindowTotal(fx: Rates, ps: seq<ResolvedPeriod>, buckets: seq<seq<Posting>>, commodity: Option<Code>,
                             n: nat): Decimal
    requires n <= |ps| == |buckets|
  {
    if n == 0 then 0.0
    else WindowTotal(fx, ps, buckets, commodity, n - 1) + Total(fx, ps[n - 1].revision, commodity, Amounts(buckets[n - 1]))
  }

  lemma ChainIsCapped(revs: seq<Revision>, ps: seq<ResolvedPeriod>)
    requires ValidBudget(revs)
    ensures AllWellCapped(CarryChain(revs, ps))
  {
    var span := ChainSpan(revs, ps);
    if span.Some? {
      WindowShape(revs, span.value.0, span.value.1);
      ResolvedAreCapped(revs, CarryChain(revs, ps));
    }
  }

  lemma ResolvedAreCapped(revs: seq<Revision>, ps: seq<ResolvedPeriod>)
    requires ValidBudget(revs) && forall k :: 0 <= k < |ps| ==> Resolved(revs, ps[k])
    ensures AllWellCapped(ps)
  {
    forall k | 0 <= k < |ps| ensures WellCapped(ps[k].revision) {
      var i: nat :| LiesIn(revs, ps[k], i);
    }
  }

  lemma WindowIsCapped(revs: seq<Revision>, window: (Date, Date))
    requires ValidBudget(revs)
    ensures AllWellCapped(PeriodsOverlapping(revs, window.0, window.1))
  {
    WindowShape(revs, window.0, window.1);
    ResolvedAreCapped(revs, PeriodsOverlapping(revs, window.0, window.1));
  }

  /** The carry into the first of `ps`: its chain's own postings folded through each policy. */
  ghost function RolloverInto(fx: Rates, revs: seq<Revision>, ledger: seq<Posting>, ps: seq<ResolvedPeriod>): Decimal
    requires ValidBudget(revs) && AllWellCapped(ps)
  {
    if ps == [] then 0.0
    else
      ChainIsCapped(revs, ps);
      var chain := CarryChain(revs, ps);
      CarryInto(fx, chain, ChainParts(ledger, chain), |chain|, ps[0].revision)
  }

  ghost function ChainUnvalued(fx: Rates, revs: seq<Revision>, ledger: seq<Posting>, ps: seq<ResolvedPeriod>): Balances
    requires ValidRevisions(revs)
  {
    var chain := CarryChain(revs, ps);
    ChainLeftovers(fx, chain, ChainParts(ledger, chain), |chain|)
  }

  /** What the status should be, period by period, with no load plan and no shared buckets. */
  ghost function StatusOf(fx: Rates, revs: seq<Revision>, ledger: seq<Posting>, window: (Date, Date),
                          keys: Option<set<PostingKey>>): BudgetStatus
    requires ValidBudget(revs)
  {
    WindowIsCapped(revs, window);
    var ps := PeriodsOverlapping(revs, window.0, window.1);
    var buckets := WindowParts(ledger, ps, window, keys);
    var commodity := WindowCommodity(ps, buckets);
    var allocation := OrZero(ProratedTarget(revs, window.0, window.1));
    var actuals := WindowTotal(fx, ps, buckets, commodity, |ps|);
    var rollover := RolloverInto(fx, revs, ledger, ps);
    BudgetStatus(Governing(revs, window.0), allocation, commodity, actuals, rollover, allocation + rollover - actuals,
                 Plus(Leftovers(ValueBuckets(fx, ps, buckets, commodity)), ChainUnvalued(fx, revs, ledger, ps)))
  }

  // ----- The two entry points -----

  /** Every posting the budget matches in the window, valued; no carry chain is loaded. */
  method WindowPostings(fx: Rates, revs: seq<Revision>, ledger: seq<Posting>, window: (Date, Date), hasQuery: bool,
                        keys: Option<set<PostingKey>>)
    returns (r: Result<WindowValuation>)
    requires keys.Some? ==> hasQuery
    requires ValidRevisions(revs)
    ensures r == if window.1 < window.0 then Err(InvalidInput) else Ok(ValuationOf(fx, revs, ledger, window, keys))
  {
    if window.1 < window.0 {
      return Err(InvalidInput);
    }
    var periods := PeriodsOverlapping(revs, window.0, window.1);
    WindowFitsAlone(revs, window);
    var none, buckets := LoadBuckets(ledger, revs, [], None, periods, window, hasQuery, keys);
    var valuation := ValueWindow(fx, periods, buckets);
    r := Ok(valuation);
  }

  /** The values there are, added up. */
  method SumValues(postings: seq<ValuedPosting>) returns (total: Decimal)
    ensures total == Actuals(postings)
  {
    total := 0.0;
    for n := 0 to |postings|
      invariant total == Actuals(postings[..n])
    {
      assert postings[..n + 1][..n] == postings[..n];
      if postings[n].value.Some? {
        total := total + postings[n].value.value;
      }
    }
    assert postings[..|postings|] == postings;
  }

  method StatusForWindow(fx: Rates, revs: seq<Revision>, ledger: seq<Posting>, window: (Date, Date), hasQuery: bool,
                         keys: Option<set<PostingKey>>)
    returns (r: Result<BudgetStatus>)
    requires keys.Some? ==> hasQuery
    requires ValidBudget(revs)
    ensures r == if window.1 < window.0 then Err(InvalidInput) else Ok(StatusOf(fx, revs, ledger, window, keys))
  {
    if window.1 < window.0 {
      r := Err(InvalidInput);
    } else {
      var status := ComputeStatus(fx, revs, ledger, window, hasQuery, keys);
      r := Ok(status);
    }
  }

  method ComputeStatus(fx: Rates, revs: seq<Revision>, ledger: seq<Posting>, window: (Date, Date), hasQuery: bool,
                       keys: Option<set<PostingKey>>)
    returns (status: BudgetStatus)
    requires keys.Some? ==> hasQuery
    requires ValidBudget(revs) && window.0 <= window.1
    ensures status == StatusOf(fx, revs, ledger, window, keys)
  {
    assert ValidRevisions(revs);
    hide *;
    WindowIsCapped(revs, window);
    var periods := PeriodsOverlapping(revs, window.0, window.1);
    var valuation, chainBuckets := LoadWindow(fx, revs, ledger, window, hasQuery, keys, periods);
    var actuals := SumValues(valuation.postings);
    ValuesSumToTotal(fx, periods, WindowParts(ledger, periods, window, keys), valuation.commodity);
    var allocation := OrZero(ProratedTarget(revs, window.0, window.1));
    var rollover, chainUnvalued := Carried(fx, revs, ledger, window, periods, chainBuckets);
    var unvalued := MergeUnvalued(valuation.unvalued, chainUnvalued);
    StatusParts(fx, revs, ledger, window, keys);
    status := BudgetStatus(Governing(revs, window.0), allocation, valuation.commodity, actuals, rollover,
                           allocation + rollover - actuals, unvalued);
  }

  /** Loads chain and window together; values the window, and keeps the chain's buckets for the carry. */
  method LoadWindow(fx: Rates, revs: seq<Revision>, ledger: seq<Posting>, window: (Date, Date), hasQuery: bool,
                    keys: Option<set<PostingKey>>,
                    periods: seq<ResolvedPeriod>)
    returns (valuation: WindowValuation, chainBuckets: seq<seq<Posting>>)
    requires keys.Some? ==> hasQuery
    requires ValidRevisions(revs) && window.0 <= window.1 && periods == PeriodsOverlapping(revs, window.0, window.1)
    ensures chainBuckets == ChainParts(ledger, CarryChain(revs, periods))
    ensures valuation.commodity == WindowCommodity(periods, WindowParts(ledger, periods, window, keys))
    ensures valuation.postings ==
            ValueBuckets(fx, periods, WindowParts(ledger, periods, window, keys), valuation.commodity)
    ensures valuation.unvalued == Leftovers(valuation.postings)
  {
    hide *;
    WindowFitsChain(revs, window);
    var buckets;
    chainBuckets, buckets := LoadBuckets(ledger, revs, CarryChain(revs, periods), ChainSpan(revs, periods), periods, window, hasQuery, keys);
    valuation := ValueWindow(fx, periods, buckets);
  }

  lemma StatusParts(fx: Rates, revs: seq<Revision>, ledger: seq<Posting>, window: (Date, Date),
                    keys: Option<set<PostingKey>>)
    requires ValidBudget(revs)
    ensures AllWellCapped(PeriodsOverlapping(revs, window.0, window.1))
    ensures var ps := PeriodsOverlapping(revs, window.0, window.1);
            var buckets := WindowParts(ledger, ps, window, keys);
            var commodity := WindowCommodity(ps, buckets);
            var allocation, actuals := OrZero(ProratedTarget(revs, window.0, window.1)), WindowTotal(fx, ps, buckets, commodity, |ps|);
            var rollover := RolloverInto(fx, revs, ledger, ps);
            StatusOf(fx, revs, ledger, window, keys) ==
            BudgetStatus(Governing(revs, window.0), allocation, commodity, actuals, rollover, allocation + rollover - actuals,
                         Plus(Leftovers(ValueBuckets(fx, ps, buckets, commodity)), ChainUnvalued(fx, revs, ledger, ps)))
  {
    WindowIsCapped(revs, window);
    hide PeriodsOverlapping, WindowParts, WindowCommodity, ProratedTarget, WindowTotal, RolloverInto, Leftovers, ValueBuckets,
         ChainUnvalued, ValidBudget, AllWellCapped, Plus;
  }

  /** The carry into the window's first period, under the revision governing its start. */
  method Carried(fx: Rates, revs: seq<Revision>, ledger: seq<Posting>, window: (Date, Date),
                 periods: seq<ResolvedPeriod>,
                 buckets: seq<seq<Posting>>)
    returns (carry: Decimal, unvalued: Balances)
    requires ValidBudget(revs) && periods == PeriodsOverlapping(revs, window.0, window.1) && AllWellCapped(periods)
    requires buckets == ChainParts(ledger, CarryChain(revs, periods))
    ensures carry == RolloverInto(fx, revs, ledger, periods)
    ensures unvalued == ChainUnvalued(fx, revs, ledger, periods)
  {
    if periods == [] {
      carry, unvalued := 0.0, map[];
    } else {
      FirstIsGoverned(revs, window);
      ChainIsCapped(revs, periods);
      hide PeriodsOverlapping, CarryChain, CarryInto, ChainLeftovers, ValidRevisions, AllWellCapped, ChainParts;
      var dst := Governing(revs, periods[0].start);
      carry, unvalued := FoldRollover(fx, revs[dst.value], CarryChain(revs, periods), buckets);
    }
  }

  /** The first period's own revision governs its start. */
  lemma FirstIsGoverned(revs: seq<Revision>, window: (Date, Date))
    requires ValidRevisions(revs) && PeriodsOverlapping(revs, window.0, window.1) != []
    ensures var p := PeriodsOverlapping(revs, window.0, window.1)[0];
            Governing(revs, p.start).Some? && revs[Governing(revs, p.start).value] == p.revision
  {
    WindowShape(revs, window.0, window.1);
    var p := PeriodsOverlapping(revs, window.0, window.1)[0];
    var i: nat :| LiesIn(revs, p, i);
    ReignGoverns(revs, i, p.start);
  }

  /** The posting values sum to the period-by-period total. */
  lemma {:induction false} ValuesSumToTotal(fx: Rates, ps: seq<ResolvedPeriod>, buckets: seq<seq<Posting>>,
                                            commodity: Option<Code>)
    requires |ps| == |buckets|
    ensures Actuals(ValueBuckets(fx, ps, buckets, commodity)) == WindowTotal(fx, ps, buckets, commodity, |ps|)
  {
    if ps == [] {
    } else {
      var last := |ps| - 1;
      ValuesSumToTotal(fx, ps[..last], buckets[..last], commodity);
      TotalOfPrefix(fx, ps, buckets, commodity, last, last);
      BucketIsFold(fx, ps[last].revision, commodity, buckets[last]);
      SumConcat(ValueBuckets(fx, ps[..last], buckets[..last], commodity),
                ValueBucket(fx, ps[last].revision, commodity, buckets[last]), ValueOr());
    }
  }

  lemma {:induction false} TotalOfPrefix(fx: Rates, ps: seq<ResolvedPeriod>, buckets: seq<seq<Posting>>,
                                         commodity: Option<Code>, m: nat, n: nat)
    requires n <= m <= |ps| == |buckets|
    ensures WindowTotal(fx, ps[..m], buckets[..m], commodity, n) == WindowTotal(fx, ps, buckets, commodity, n)
  {
    if n == 0 {
    } else {
      TotalOfPrefix(fx, ps, buckets, commodity, m, n - 1);
    }
  }
}
