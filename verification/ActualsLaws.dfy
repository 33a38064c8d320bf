/** What a window's actuals and leftovers are, posting by posting over the whole ledger. */
module ActualsLaws {
  import opened Prelude
  import opened Sums
  import opened Seqs
  import opened Balances
  import opened Timeline
  import opened Postings
  import opened Valuation
  import opened WindowValues
  import opened Proration
  import opened WindowBuckets
  import opened Status
  import opened StatusLaws

  /**
   * What one posting is worth on the day it is dated: converted into the governing revision's target commodity, or,
   * tracking only, the amount itself when it is in the window's one commodity.
   */
  function Worth(fx: Rates, revs: seq<Revision>, commodity: Option<Code>, x: Posting): Option<Decimal> {
    match Governing(revs, x.date)
    case None => None
    case Some(i) =>
      match revs[i].target
      case Some(target) => fx(x.amount, target.commodity)
      case None => if commodity == Some(x.amount.commodity) then Some(x.amount.value) else None
  }

  function WorthOrZero(fx: Rates, revs: seq<Revision>, commodity: Option<Code>): Posting -> Decimal {
    (x: Posting) => match Worth(fx, revs, commodity, x) case Some(value) => value case None => 0.0
  }

  /** What a posting adds to the actuals of a window. */
  function DueWorth(fx: Rates, revs: seq<Revision>, window: (Date, Date), keys: Option<set<PostingKey>>,
                    commodity: Option<Code>)
    : Posting -> Decimal
  {
    (x: Posting) => if Due(revs, window, keys)(x) then WorthOrZero(fx, revs, commodity)(x) else 0.0
  }

  function Worthless(fx: Rates, revs: seq<Revision>, commodity: Option<Code>, c: Code): Posting -> Decimal {
    (x: Posting) => if Worth(fx, revs, commodity, x).None? && x.amount.commodity == c then x.amount.value else 0.0
  }

  /** What a posting adds to the window's leftovers in `c`. */
  function DueWorthless(fx: Rates, revs: seq<Revision>, window: (Date, Date), keys: Option<set<PostingKey>>,
                        commodity: Option<Code>,
                        c: Code): Posting -> Decimal
  {
    (x: Posting) => if Due(revs, window, keys)(x) then Worthless(fx, revs, commodity, c)(x) else 0.0
  }

  // ----- Each listed posting has its own worth -----

  /** Every listed posting is the worth its date gives it. */
  ghost predicate AllWorth(fx: Rates, revs: seq<Revision>, commodity: Option<Code>, valued: seq<ValuedPosting>) {
    forall i :: 0 <= i < |valued| ==> valued[i].value == Worth(fx, revs, commodity, valued[i].posting)
  }

  /** The postings of a bucket are dated on days `rev` governs. */
  ghost predicate GovernedBy(revs: seq<Revision>, rev: Revision, bucket: seq<Posting>) {
    forall i :: 0 <= i < |bucket| ==> Governing(revs, bucket[i].date).Some? && revs[Governing(revs, bucket[i].date).value] == rev
  }

  lemma {:induction false} BucketWorth(fx: Rates, revs: seq<Revision>, rev: Revision, commodity: Option<Code>,
                                       bucket: seq<Posting>)
    requires GovernedBy(revs, rev, bucket)
    ensures AllWorth(fx, revs, commodity, ValueBucket(fx, rev, commodity, bucket))
  {
    if bucket == [] {
    } else {
      BucketWorth(fx, revs, rev, commodity, bucket[..|bucket| - 1]);
      assert GovernedBy(revs, rev, [bucket[|bucket| - 1]]);
    }
  }

  lemma {:induction false} BucketsWorth(fx: Rates, revs: seq<Revision>, ps: seq<ResolvedPeriod>,
                                        buckets: seq<seq<Posting>>,
                                        commodity: Option<Code>)
    requires |ps| == |buckets| && forall k :: 0 <= k < |ps| ==> GovernedBy(revs, ps[k].revision, buckets[k])
    ensures AllWorth(fx, revs, commodity, ValueBuckets(fx, ps, buckets, commodity))
  {
    hide GovernedBy, Worth, ValueBucket;
    if ps == [] {
    } else {
      var last := |ps| - 1;
      BucketsWorth(fx, revs, ps[..last], buckets[..last], commodity);
      BucketWorth(fx, revs, ps[last].revision, commodity, buckets[last]);
    }
  }

  /** A window's buckets hold postings of days their own period's revision governs. */
  lemma PartsAreGoverned(revs: seq<Revision>, ledger: seq<Posting>, window: (Date, Date),
                         keys: Option<set<PostingKey>>, k: nat)
    requires ValidRevisions(revs) && k < |PeriodsOverlapping(revs, window.0, window.1)|
    ensures var ps := PeriodsOverlapping(revs, window.0, window.1);
            GovernedBy(revs, ps[k].revision, WindowParts(ledger, ps, window, keys)[k])
  {
    var ps := PeriodsOverlapping(revs, window.0, window.1);
    var bucket := WindowParts(ledger, ps, window, keys)[k];
    PartIsFilter(ledger, ps[k], window, keys);
    FilterMembers(ledger, DueIn(ps[k], window, keys));
    forall i | 0 <= i < |bucket|
      ensures Governing(revs, bucket[i].date).Some? && revs[Governing(revs, bucket[i].date).value] == ps[k].revision
    {
      assert bucket[i] in bucket;
      DatedInItsPeriod(ps[k], window, keys, bucket[i]);
      EachGovernedDayOnce(revs, window.0, window.1, bucket[i].date);
    }
  }

  lemma DatedInItsPeriod(p: ResolvedPeriod, window: (Date, Date), keys: Option<set<PostingKey>>, x: Posting)
    requires DueIn(p, window, keys)(x)
    ensures Contains(p, x.date) && window.0 <= x.date < window.1
  {
  }

  // ----- Sums over the listing, and over the ledger -----

  lemma {:induction false} ActualsOverPlain(fx: Rates, revs: seq<Revision>, commodity: Option<Code>,
                                            valued: seq<ValuedPosting>)
    requires AllWorth(fx, revs, commodity, valued)
    ensures Actuals(valued) == Sum(Plain(valued), WorthOrZero(fx, revs, commodity))
  {
    hide Worth;
    if valued == [] {
    } else {
      var init, last := valued[..|valued| - 1], valued[|valued| - 1];
      ActualsOverPlain(fx, revs, commodity, init);
      assert Plain(valued)[..|init|] == Plain(init);
    }
  }

  lemma {:induction false} LeftoversOverPlain(fx: Rates, revs: seq<Revision>, commodity: Option<Code>,
                                              valued: seq<ValuedPosting>, c: Code)
    requires AllWorth(fx, revs, commodity, valued)
    ensures Get(Leftovers(valued), c) == Sum(Plain(valued), Worthless(fx, revs, commodity, c))
  {
    hide Worth;
    if valued == [] {
    } else {
      var init, last := valued[..|valued| - 1], valued[|valued| - 1];
      LeftoversOverPlain(fx, revs, commodity, init, c);
      assert Plain(valued)[..|init|] == Plain(init);
    }
  }

  /** The listing is a permutation of what is due. */
  lemma ListingIsDue(fx: Rates, revs: seq<Revision>, ledger: seq<Posting>, window: (Date, Date),
                     keys: Option<set<PostingKey>>)
    requires ValidRevisions(revs) && window.0 <= window.1
    ensures multiset(Plain(ValuationOf(fx, revs, ledger, window, keys).postings)) == multiset(Filter(ledger, Due(revs, window, keys)))
  {
    hide *;
    var listed, due := Plain(ValuationOf(fx, revs, ledger, window, keys).postings), Filter(ledger, Due(revs, window, keys));
    forall x: Posting ensures multiset(listed)[x] == multiset(due)[x] {
      EachMatchListedOnce(fx, revs, ledger, window, keys, x);
      FilterMultiset(ledger, Due(revs, window, keys), x);
    }
  }

  lemma ListingHasWorth(fx: Rates, revs: seq<Revision>, ledger: seq<Posting>, window: (Date, Date),
                        keys: Option<set<PostingKey>>)
    requires ValidRevisions(revs)
    ensures var valuation := ValuationOf(fx, revs, ledger, window, keys);
            AllWorth(fx, revs, valuation.commodity, valuation.postings)
  {
    var ps := PeriodsOverlapping(revs, window.0, window.1);
    var buckets := WindowParts(ledger, ps, window, keys);
    hide WindowParts, PeriodsOverlapping, GovernedBy, AllWorth;
    forall k | 0 <= k < |ps| {
      PartsAreGoverned(revs, ledger, window, keys, k);
    }
    BucketsWorth(fx, revs, ps, buckets, WindowCommodity(ps, buckets));
  }

  lemma DueWorthIs(fx: Rates, revs: seq<Revision>, ledger: seq<Posting>, window: (Date, Date),
                   keys: Option<set<PostingKey>>,
                   commodity: Option<Code>, c: Code)
    ensures Sum(Filter(ledger, Due(revs, window, keys)), WorthOrZero(fx, revs, commodity)) ==
            Sum(ledger, DueWorth(fx, revs, window, keys, commodity))
    ensures Sum(Filter(ledger, Due(revs, window, keys)), Worthless(fx, revs, commodity, c)) ==
            Sum(ledger, DueWorthless(fx, revs, window, keys, commodity, c))
  {
    hide Due, Worth;
    SumFiltered(ledger, Due(revs, window, keys), WorthOrZero(fx, revs, commodity), DueWorth(fx, revs, window, keys, commodity));
    SumFiltered(ledger, Due(revs, window, keys), Worthless(fx, revs, commodity, c),
                DueWorthless(fx, revs, window, keys, commodity, c));
  }

  /**
   * Over the whole ledger: a window's actuals are what every due posting is worth on its own day, and the
   * window's leftovers the native amounts of the due postings worth nothing that day.
   */
  lemma ActualsAreDueWorth(fx: Rates, revs: seq<Revision>, ledger: seq<Posting>, window: (Date, Date),
                           keys: Option<set<PostingKey>>,
                           c: Code)
    requires ValidBudget(revs) && window.0 <= window.1
    ensures var status := StatusOf(fx, revs, ledger, window, keys);
            status.actuals == Sum(ledger, DueWorth(fx, revs, window, keys, status.commodity))
    ensures var valuation := ValuationOf(fx, revs, ledger, window, keys);
            Get(valuation.unvalued, c) == Sum(ledger, DueWorthless(fx, revs, window, keys, valuation.commodity, c))
  {
    hide *;
    BudgetHasRevisions(revs);
    var valuation := ValuationOf(fx, revs, ledger, window, keys);
    ListedValuesAreTheActuals(fx, revs, ledger, window, keys);
    ListingHasWorth(fx, revs, ledger, window, keys);
    ListingIsDue(fx, revs, ledger, window, keys);
    LeftoversAreTheListings(fx, revs, ledger, window, keys);
    ActualsOverPlain(fx, revs, valuation.commodity, valuation.postings);
    LeftoversOverPlain(fx, revs, valuation.commodity, valuation.postings, c);
    var due := Filter(ledger, Due(revs, window, keys));
    SumPermuted(Plain(valuation.postings), due, WorthOrZero(fx, revs, valuation.commodity));
    SumPermuted(Plain(valuation.postings), due, Worthless(fx, revs, valuation.commodity, c));
    DueWorthIs(fx, revs, ledger, window, keys, valuation.commodity, c);
  }

  lemma LeftoversAreTheListings(fx: Rates, revs: seq<Revision>, ledger: seq<Posting>, window: (Date, Date),
                                keys: Option<set<PostingKey>>)
    requires ValidRevisions(revs)
    ensures var valuation := ValuationOf(fx, revs, ledger, window, keys); valuation.unvalued == Leftovers(valuation.postings)
  {
  }

  // ----- The one commodity of a window -----

  /** What a posting adds to the native total of `c`. */
  function DueNative(revs: seq<Revision>, window: (Date, Date), keys: Option<set<PostingKey>>,
                     c: Code): Posting -> Decimal {
    (x: Posting) => if Due(revs, window, keys)(x) && x.amount.commodity == c then x.amount.value else 0.0
  }

  function NativeTotal(revs: seq<Revision>, ledger: seq<Posting>, window: (Date, Date), keys: Option<set<PostingKey>>,
                       c: Code): Decimal {
    Sum(ledger, DueNative(revs, window, keys, c))
  }

  /** Some due posting is in `c`. */
  predicate DueIsIn(revs: seq<Revision>, ledger: seq<Posting>, window: (Date, Date), keys: Option<set<PostingKey>>,
                    c: Code) {
    exists x :: x in ledger && Due(revs, window, keys)(x) && x.amount.commodity == c
  }

  function AmountIn(c: Code): Posting -> Decimal {
    (x: Posting) => NativeIn(c)(x.amount)
  }

  lemma {:induction false} SumOfAmounts(postings: seq<Posting>, c: Code)
    ensures Sum(Amounts(postings), NativeIn(c)) == Sum(postings, AmountIn(c))
  {
    if postings == [] {
    } else {
      SumOfAmounts(postings[..|postings| - 1], c);
      assert Amounts(postings)[..|postings| - 1] == Amounts(postings[..|postings| - 1]);
    }
  }

  lemma CodesOf(postings: seq<Posting>, c: Code)
    ensures c in Codes(Amounts(postings)) <==> exists x :: x in postings && x.amount.commodity == c
  {
    var amounts := Amounts(postings);
    if c in Codes(amounts) {
      var i :| 0 <= i < |amounts| && amounts[i].commodity == c;
      assert postings[i] in postings;
    }
    if exists x :: x in postings && x.amount.commodity == c {
      var x :| x in postings && x.amount.commodity == c;
      var i :| 0 <= i < |postings| && postings[i] == x;
      assert amounts[i].commodity == c;
    }
  }

  /** The groups of a window are the native totals of the commodities of its due postings. */
  lemma GroupsAreNativeTotals(fx: Rates, revs: seq<Revision>, ledger: seq<Posting>, window: (Date, Date),
                              keys: Option<set<PostingKey>>, c: Code)
    requires ValidRevisions(revs) && window.0 <= window.1
    ensures var listed := Plain(ValuationOf(fx, revs, ledger, window, keys).postings);
            && (c in Groups(Amounts(listed)) <==> DueIsIn(revs, ledger, window, keys, c))
            && (c in Groups(Amounts(listed)) ==> Groups(Amounts(listed))[c] == NativeTotal(revs, ledger, window, keys, c))
  {
    var listed, due := Plain(ValuationOf(fx, revs, ledger, window, keys).postings), Filter(ledger, Due(revs, window, keys));
    ListingIsDue(fx, revs, ledger, window, keys);
    FilterMembers(ledger, Due(revs, window, keys));
    CodesOf(listed, c);
    SumOfAmounts(listed, c);
    SumPermuted(listed, due, AmountIn(c));
    hide Due, ValuationOf, Filter, Sum, Plain;
    SumFiltered(ledger, Due(revs, window, keys), AmountIn(c), DueNative(revs, window, keys, c));
    forall x ensures x in listed <==> x in due {
      assert x in listed <==> x in multiset(listed);
      assert x in due <==> x in multiset(due);
    }
  }

  lemma UntargetedPrefix(ps: seq<ResolvedPeriod>, k: nat)
    requires k <= |ps| && Untargeted(ps[..k])
    ensures forall j :: 0 <= j < k ==> ps[j].revision.target.None?
  {
    forall j | 0 <= j < k ensures ps[j].revision.target.None? {
      assert ps[..k][j] == ps[j];
    }
  }

  lemma {:induction false} FirstTargetIs(ps: seq<ResolvedPeriod>)
    ensures FirstTarget(ps).None? <==> Untargeted(ps)
    ensures forall k :: 0 <= k < |ps| && ps[k].revision.target.Some? && Untargeted(ps[..k]) ==>
              FirstTarget(ps) == Some(ps[k].revision.target.value.commodity)
  {
    if ps == [] {
    } else if ps[0].revision.target.Some? {
      forall k | 0 <= k < |ps| && Untargeted(ps[..k]) ensures k == 0 {
        UntargetedPrefix(ps, k);
      }
    } else {
      FirstTargetIs(ps[1..]);
      assert ps == [ps[0]] + ps[1..];
      forall k | 0 <= k < |ps| && ps[k].revision.target.Some? && Untargeted(ps[..k])
        ensures FirstTarget(ps) == Some(ps[k].revision.target.value.commodity)
      {
        assert ps[1..][..k - 1] == ps[..k][1..];
        assert ps[1..][k - 1] == ps[k];
      }
    }
  }

  lemma CommodityIs(fx: Rates, revs: seq<Revision>, ledger: seq<Posting>, window: (Date, Date),
                    keys: Option<set<PostingKey>>)
    requires ValidBudget(revs)
    ensures var ps := PeriodsOverlapping(revs, window.0, window.1);
            var listed := Plain(ValuationOf(fx, revs, ledger, window, keys).postings);
            StatusOf(fx, revs, ledger, window, keys).commodity ==
            if FirstTarget(ps).Some? then FirstTarget(ps) else Dominant(Groups(Amounts(listed)))
  {
    var ps := PeriodsOverlapping(revs, window.0, window.1);
    var buckets := WindowParts(ledger, ps, window, keys);
    StatusParts(fx, revs, ledger, window, keys);
    EachPostingOnce(fx, ps, buckets, WindowCommodity(ps, buckets));
    hide StatusOf, PeriodsOverlapping, WindowParts, FirstTarget, Dominant, Groups, ValueBuckets, All, Plain;
  }

  /** The native total of `c` is larger than that of `d` in absolute value, or as large with `d` no higher a code. */
  predicate Outweighs(revs: seq<Revision>, ledger: seq<Posting>, window: (Date, Date), keys: Option<set<PostingKey>>,
                      c: Code, d: Code) {
    var mine, other := NativeTotal(revs, ledger, window, keys, c), NativeTotal(revs, ledger, window, keys, d);
    var size, least := if mine < 0.0 then -mine else mine, if other < 0.0 then -other else other;
    least < size || (least == size && d <= c)
  }

  /**
   * A window has one commodity: that of its first target, or, with no target at all, the one with the largest
   * absolute native total over the due postings, the highest code among equals; none when nothing is due.
   */
  lemma WindowHasOneCommodity(fx: Rates, revs: seq<Revision>, ledger: seq<Posting>, window: (Date, Date),
                              keys: Option<set<PostingKey>>)
    requires ValidBudget(revs) && window.0 <= window.1
    ensures var ps := PeriodsOverlapping(revs, window.0, window.1);
            var commodity := StatusOf(fx, revs, ledger, window, keys).commodity;
            && (forall k :: 0 <= k < |ps| && ps[k].revision.target.Some? && Untargeted(ps[..k]) ==>
                  commodity == Some(ps[k].revision.target.value.commodity))
            && (Untargeted(ps) ==>
                  && (commodity.None? <==> forall d: Code :: !DueIsIn(revs, ledger, window, keys, d))
                  && (commodity.Some? ==>
                        && DueIsIn(revs, ledger, window, keys, commodity.value)
                        && forall d: Code :: DueIsIn(revs, ledger, window, keys, d) ==>
                             Outweighs(revs, ledger, window, keys, commodity.value, d)))
  {
    var ps := PeriodsOverlapping(revs, window.0, window.1);
    var listed := Plain(ValuationOf(fx, revs, ledger, window, keys).postings);
    CommodityIs(fx, revs, ledger, window, keys);
    FirstTargetIs(ps);
    hide *;
    if Untargeted(ps) {
      forall d: Code
        ensures d in Groups(Amounts(listed)) <==> DueIsIn(revs, ledger, window, keys, d)
        ensures d in Groups(Amounts(listed)) ==> Groups(Amounts(listed))[d] == NativeTotal(revs, ledger, window, keys, d)
      {
        GroupsAreNativeTotals(fx, revs, ledger, window, keys, d);
      }
      DominantOutweighs(revs, ledger, window, keys, Groups(Amounts(listed)));
    }
  }

  lemma DominantOutweighs(revs: seq<Revision>, ledger: seq<Posting>, window: (Date, Date),
                          keys: Option<set<PostingKey>>,
                          groups: map<Code, Decimal>)
    requires forall d: Code :: d in groups <==> DueIsIn(revs, ledger, window, keys, d)
    requires forall d: Code :: d in groups ==> groups[d] == NativeTotal(revs, ledger, window, keys, d)
    ensures Dominant(groups).None? <==> forall d: Code :: !DueIsIn(revs, ledger, window, keys, d)
    ensures Dominant(groups).Some? ==>
              && DueIsIn(revs, ledger, window, keys, Dominant(groups).value)
              && forall d: Code :: DueIsIn(revs, ledger, window, keys, d) ==>
                   Outweighs(revs, ledger, window, keys, Dominant(groups).value, d)
  {
    hide DueIsIn, NativeTotal;
    assert groups == map[] <==> groups.Keys == {};
  }

  /** With no target in the window, its actuals are the native total of its one commodity, or nothing. */
  lemma TrackingActuals(fx: Rates, revs: seq<Revision>, ledger: seq<Posting>, window: (Date, Date),
                        keys: Option<set<PostingKey>>)
    requires ValidBudget(revs) && window.0 <= window.1 && Untargeted(PeriodsOverlapping(revs, window.0, window.1))
    ensures var status := StatusOf(fx, revs, ledger, window, keys);
            status.actuals == if status.commodity.None? then 0.0 else NativeTotal(revs, ledger, window, keys, status.commodity.value)
  {
    hide *;
    BudgetHasRevisions(revs);
    var commodity := StatusOf(fx, revs, ledger, window, keys).commodity;
    ActualsAreDueWorth(fx, revs, ledger, window, keys, 0);
    forall x: Posting
      ensures DueWorth(fx, revs, window, keys, commodity)(x) ==
              if commodity.None? then 0.0 else DueNative(revs, window, keys, commodity.value)(x)
    {
      TrackingWorth(fx, revs, window, keys, commodity, x);
    }
    NativeTotals(fx, revs, ledger, window, keys, commodity);
  }

  lemma TrackingWorth(fx: Rates, revs: seq<Revision>, window: (Date, Date), keys: Option<set<PostingKey>>,
                      commodity: Option<Code>,
                      x: Posting)
    requires ValidRevisions(revs) && window.0 <= window.1 && Untargeted(PeriodsOverlapping(revs, window.0, window.1))
    ensures DueWorth(fx, revs, window, keys, commodity)(x) ==
            if commodity.None? then 0.0 else DueNative(revs, window, keys, commodity.value)(x)
  {
    if Due(revs, window, keys)(x) {
      var ps := PeriodsOverlapping(revs, window.0, window.1);
      EachGovernedDayOnce(revs, window.0, window.1, x.date);
      hide PeriodsOverlapping, Governing;
      var k :| 0 <= k < |ps| && Contains(ps[k], x.date);
      assert ps[k].revision.target.None?;
    }
  }

  lemma NativeTotals(fx: Rates, revs: seq<Revision>, ledger: seq<Posting>, window: (Date, Date),
                     keys: Option<set<PostingKey>>,
                     commodity: Option<Code>)
    requires forall x: Posting :: DueWorth(fx, revs, window, keys, commodity)(x) ==
               if commodity.None? then 0.0 else DueNative(revs, window, keys, commodity.value)(x)
    ensures Sum(ledger, DueWorth(fx, revs, window, keys, commodity)) ==
            if commodity.None? then 0.0 else NativeTotal(revs, ledger, window, keys, commodity.value)
  {
    hide DueWorth, DueNative;
    if commodity.None? {
      SumOfZeros(ledger, DueWorth(fx, revs, window, keys, commodity));
    } else {
      SumPointwise(ledger, DueWorth(fx, revs, window, keys, commodity), DueNative(revs, window, keys, commodity.value));
    }
  }
}
