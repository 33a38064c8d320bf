/** What a status means across windows and from one period to the next. */
module StatusLaws {
  import opened Prelude
  import opened Seqs
  import opened Sums
  import opened Balances
  import opened Timeline
  import opened Carry
  import opened Postings
  import opened Valuation
  import opened WindowValues
  import opened Proration
  import opened RolloverFold
  import opened WindowBuckets
  import opened Status

  // ----- One valuation, two paths -----

  /** For any window and query, the listed values sum to the status's actuals, in the same commodity. */
  lemma ListedValuesAreTheActuals(fx: Rates, revs: seq<Revision>, ledger: seq<Posting>, window: (Date, Date),
                                  keys: Option<set<PostingKey>>)
    requires ValidBudget(revs)
    ensures Actuals(ValuationOf(fx, revs, ledger, window, keys).postings) ==
            StatusOf(fx, revs, ledger, window, keys).actuals
    ensures ValuationOf(fx, revs, ledger, window, keys).commodity == StatusOf(fx, revs, ledger, window, keys).commodity
  {
    var ps := PeriodsOverlapping(revs, window.0, window.1);
    var buckets := WindowParts(ledger, ps, window, keys);
    ValuesSumToTotal(fx, ps, buckets, WindowCommodity(ps, buckets));
    StatusParts(fx, revs, ledger, window, keys);
    hide StatusOf, WindowTotal, ValueBuckets, WindowCommodity, PeriodsOverlapping, WindowParts, Actuals, Leftovers;
  }

  /** What a window matches: dated inside it on a governed day, inside that day's tag filter, and in the query. */
  function Due(revs: seq<Revision>, window: (Date, Date), keys: Option<set<PostingKey>>): Posting -> bool {
    (p: Posting) =>
      && window.0 <= p.date < window.1
      && Governing(revs, p.date).Some?
      && (revs[Governing(revs, p.date).value].tagFilter.Some? ==>
          revs[Governing(revs, p.date).value].tagFilter.value in p.tags)
      && (keys.Some? ==> p.key in keys.value)
  }

  /** The test of one period's bucket. */
  function DueIn(p: ResolvedPeriod, window: (Date, Date), keys: Option<set<PostingKey>>): Posting -> bool {
    Admitted(Max(p.start, window.0), Min(p.end, window.1), p.revision.tagFilter, keys)
  }

  predicate DueBefore(ps: seq<ResolvedPeriod>, window: (Date, Date), keys: Option<set<PostingKey>>, n: nat, x: Posting)
    requires n <= |ps|
  {
    exists k :: 0 <= k < n && DueIn(ps[k], window, keys)(x)
  }

  lemma {:induction false} CountInBuckets(ledger: seq<Posting>, ps: seq<ResolvedPeriod>, window: (Date, Date),
                                          keys: Option<set<PostingKey>>, x: Posting)
    requires forall j, k :: 0 <= j < k < |ps| ==> !(DueIn(ps[j], window, keys)(x) && DueIn(ps[k], window, keys)(x))
    ensures multiset(All(WindowParts(ledger, ps, window, keys)))[x] == if DueBefore(ps, window, keys, |ps|, x) then multiset(ledger)[x] else 0
  {
    if ps == [] {
    } else {
      var last := |ps| - 1;
      assert forall k :: 0 <= k < last ==> ps[..last][k] == ps[k];
      hide *;
      CountInBuckets(ledger, ps[..last], window, keys, x);
      LastPart(ledger, ps, window, keys, x);
      LastDue(ps, window, keys, x);
    }
  }

  lemma LastDue(ps: seq<ResolvedPeriod>, window: (Date, Date), keys: Option<set<PostingKey>>, x: Posting)
    requires ps != []
    requires forall j, k :: 0 <= j < k < |ps| ==> !(DueIn(ps[j], window, keys)(x) && DueIn(ps[k], window, keys)(x))
    ensures var last := |ps| - 1;
            && (DueBefore(ps, window, keys, |ps|, x) <==>
                DueBefore(ps[..last], window, keys, last, x) || DueIn(ps[last], window, keys)(x))
            && !(DueBefore(ps[..last], window, keys, last, x) && DueIn(ps[last], window, keys)(x))
  {
    hide DueIn;
    var last := |ps| - 1;
    assert forall k :: 0 <= k < last ==> ps[..last][k] == ps[k];
  }

  lemma LastPart(ledger: seq<Posting>, ps: seq<ResolvedPeriod>, window: (Date, Date), keys: Option<set<PostingKey>>,
                 x: Posting)
    requires ps != []
    ensures multiset(All(WindowParts(ledger, ps, window, keys)))[x] ==
            multiset(All(WindowParts(ledger, ps[..|ps| - 1], window, keys)))[x]
            + if DueIn(ps[|ps| - 1], window, keys)(x) then multiset(ledger)[x] else 0
  {
    var last, parts := |ps| - 1, WindowParts(ledger, ps, window, keys);
    PartIsFilter(ledger, ps[last], window, keys);
    FilterMultiset(ledger, DueIn(ps[last], window, keys), x);
    hide DueIn, WindowParts, WindowBucket, Filter;
    assert parts[..last] == WindowParts(ledger, ps[..last], window, keys);
  }

  lemma PartIsFilter(ledger: seq<Posting>, p: ResolvedPeriod, window: (Date, Date), keys: Option<set<PostingKey>>)
    ensures WindowBucket(ledger, p, window, keys) == Filter(ledger, DueIn(p, window, keys))
  {
  }

  /** A posting is due in a period exactly when it is due and dated in that period. */
  lemma DueInItsPeriod(revs: seq<Revision>, window: (Date, Date), keys: Option<set<PostingKey>>, k: nat, x: Posting)
    requires ValidRevisions(revs) && k < |PeriodsOverlapping(revs, window.0, window.1)| && window.0 < window.1
    ensures var p := PeriodsOverlapping(revs, window.0, window.1)[k];
            DueIn(p, window, keys)(x) <==> Due(revs, window, keys)(x) && Contains(p, x.date)
  {
    var p := PeriodsOverlapping(revs, window.0, window.1)[k];
    if window.0 <= x.date < window.1 {
      EachGovernedDayOnce(revs, window.0, window.1, x.date);
    }
  }

  /** Each posting the window matches is listed exactly as often as the ledger holds it, and no other is listed. */
  lemma EachMatchListedOnce(fx: Rates, revs: seq<Revision>, ledger: seq<Posting>, window: (Date, Date),
                            keys: Option<set<PostingKey>>, x: Posting)
    requires ValidRevisions(revs) && window.0 <= window.1
    ensures multiset(Plain(ValuationOf(fx, revs, ledger, window, keys).postings))[x] ==
            if Due(revs, window, keys)(x) then multiset(ledger)[x] else 0
  {
    var ps := PeriodsOverlapping(revs, window.0, window.1);
    var buckets := WindowParts(ledger, ps, window, keys);
    EachPostingOnce(fx, ps, buckets, WindowCommodity(ps, buckets));
    hide WindowParts, All, ValueBuckets, WindowCommodity, DueIn, Due;
    if window.0 == window.1 {
      assert ps == [];
      CountInBuckets(ledger, ps, window, keys, x);
      NothingDue(revs, window, keys, x);
    } else {
      forall k | 0 <= k < |ps| {
        DueInItsPeriod(revs, window, keys, k, x);
      }
      PeriodOfDate(revs, window, keys, x);
      CountInBuckets(ledger, ps, window, keys, x);
    }
  }

  lemma NothingDue(revs: seq<Revision>, window: (Date, Date), keys: Option<set<PostingKey>>, x: Posting)
    requires window.0 == window.1
    ensures !Due(revs, window, keys)(x)
  {
  }

  lemma PeriodOfDate(revs: seq<Revision>, window: (Date, Date), keys: Option<set<PostingKey>>, x: Posting)
    requires ValidRevisions(revs) && window.0 < window.1
    ensures var ps := PeriodsOverlapping(revs, window.0, window.1);
            && (Due(revs, window, keys)(x) ==> Covers(ps, x.date))
            && forall j, k :: 0 <= j < k < |ps| && Due(revs, window, keys)(x) ==>
               !(Contains(ps[j], x.date) && Contains(ps[k], x.date))
  {
    if window.0 <= x.date < window.1 {
      EachGovernedDayOnce(revs, window.0, window.1, x.date);
    }
  }

  // ----- From one period to the next -----

  /** The status of a whole period, unfiltered. */
  ghost function PeriodStatus(fx: Rates, revs: seq<Revision>, ledger: seq<Posting>, p: ResolvedPeriod): BudgetStatus
    requires ValidBudget(revs)
  {
    StatusOf(fx, revs, ledger, (p.start, p.end), None)
  }

  lemma ChainOfPeriodsIsCapped(revs: seq<Revision>, horizon: Date, k: nat)
    requires ValidBudget(revs) && revs != [] && k < |Periods(revs, horizon)|
    ensures AllWellCapped(Chain(Periods(revs, horizon), k)) && WellCapped(Periods(revs, horizon)[k].revision)
  {
    PeriodsShape(revs, horizon);
    ResolvedAreCapped(revs, Periods(revs, horizon));
  }

  /** The carry that reaches period `k` through its chain. */
  ghost function CarryAt(fx: Rates, ledger: seq<Posting>, all: seq<ResolvedPeriod>, k: nat): Decimal
    requires k < |all| && AllWellCapped(Chain(all, k)) && WellCapped(all[k].revision)
  {
    CarryInto(fx, Chain(all, k), ChainParts(ledger, Chain(all, k)), |Chain(all, k)|, all[k].revision)
  }

  lemma WholeWindowPart(ledger: seq<Posting>, p: ResolvedPeriod)
    requires p.start < p.end
    ensures WindowParts(ledger, [p], (p.start, p.end), None) == [ChainBucket(ledger, p)]
  {
  }

  /** A whole period's allocation is its share, its actuals what it spends, its rollover what its chain carries in. */
  lemma StatusOfPeriod(fx: Rates, revs: seq<Revision>, ledger: seq<Posting>, horizon: Date, k: nat)
    requires ValidBudget(revs) && revs != []
    requires k < |Periods(revs, horizon)| && Periods(revs, horizon)[k].end <= horizon
    ensures AllWellCapped(Chain(Periods(revs, horizon), k)) && WellCapped(Periods(revs, horizon)[k].revision)
    ensures var p := Periods(revs, horizon)[k];
            var status := PeriodStatus(fx, revs, ledger, p);
            && status.allocation == WholeShare(p)
            && status.actuals == Spent(fx, p, ChainBucket(ledger, p)).total
            && status.rollover == CarryAt(fx, ledger, Periods(revs, horizon), k)
            && status.available == status.allocation + status.rollover - status.actuals
  {
    var all := Periods(revs, horizon);
    var p := all[k];
    OnePeriod(revs, horizon, k);
    PeriodsShape(revs, horizon);
    ChainOfPeriodsIsCapped(revs, horizon, k);
    WholeWindowPart(ledger, p);
    assert PeriodsOverlapping(revs, p.start, p.end) == [p];
    StatusParts(fx, revs, ledger, (p.start, p.end), None);
    AllocationOfPeriod(revs, p);
    ActualsOfPeriod(fx, p, ChainBucket(ledger, p));
    RolloverOfPeriod(fx, revs, ledger, horizon, k);
    hide *;
    PeriodStatusIs(fx, revs, ledger, p);
  }

  lemma PeriodStatusIs(fx: Rates, revs: seq<Revision>, ledger: seq<Posting>, p: ResolvedPeriod)
    requires ValidBudget(revs)
    ensures PeriodStatus(fx, revs, ledger, p) == StatusOf(fx, revs, ledger, (p.start, p.end), None)
  {
  }

  lemma AllocationOfPeriod(revs: seq<Revision>, p: ResolvedPeriod)
    requires ValidRevisions(revs) && p.start < p.end && PeriodsOverlapping(revs, p.start, p.end) == [p]
    ensures OrZero(ProratedTarget(revs, p.start, p.end)) == WholeShare(p)
  {
    ProratedIsSum(revs, p.start, p.end);
    SumOne(p, ShareIn(p.start, p.end));
    hide PeriodShare;
  }

  lemma ActualsOfPeriod(fx: Rates, p: ResolvedPeriod, bucket: seq<Posting>)
    ensures WindowTotal(fx, [p], [bucket], WindowCommodity([p], [bucket]), 1) == Spent(fx, p, bucket).total
  {
    var commodity := WindowCommodity([p], [bucket]);
    OnePeriodAgreesWithFold(fx, p, bucket);
    OneBucket(fx, p, bucket, commodity);
    BucketIsFold(fx, p.revision, commodity, bucket);
    hide Total, WindowCommodity, Actuals, ActualsOf, ValueBucket, ValueBuckets, Leftovers, Unvalued;
    assert WindowTotal(fx, [p], [bucket], commodity, 0) == 0.0;
  }

  lemma RolloverOfPeriod(fx: Rates, revs: seq<Revision>, ledger: seq<Posting>, horizon: Date, k: nat)
    requires ValidBudget(revs) && revs != [] && k < |Periods(revs, horizon)|
    ensures AllWellCapped(Chain(Periods(revs, horizon), k)) && WellCapped(Periods(revs, horizon)[k].revision)
    ensures AllWellCapped([Periods(revs, horizon)[k]])
    ensures RolloverInto(fx, revs, ledger, [Periods(revs, horizon)[k]]) ==
            CarryAt(fx, ledger, Periods(revs, horizon), k)
  {
    var all := Periods(revs, horizon);
    ChainOfPeriodsIsCapped(revs, horizon, k);
    ChainStartIsChain(revs, horizon, k);
    if Chain(all, k) != [] {
      ChainPeriodsAreChain(revs, horizon, k);
    }
    assert CarryChain(revs, [all[k]]) == Chain(all, k);
    hide CarryChain, Chain, CarryInto, ChainParts, Periods, ValidBudget;
  }

  // ----- Rollover belongs to the budget, not to the view -----

  /**
   * A window's first period is one of the budget's whole periods, and a window cut to that period resolves to it
   * alone.
   */
  lemma FirstPeriodAlone(revs: seq<Revision>, window: (Date, Date))
    requires ValidRevisions(revs) && PeriodsOverlapping(revs, window.0, window.1) != []
    ensures var p := PeriodsOverlapping(revs, window.0, window.1)[0];
            PeriodsOverlapping(revs, p.start, p.end) == [p]
  {
    assert revs != [] && window.0 < window.1 by { WindowShape(revs, window.0, window.1); }
    hide *;
    var p := PeriodsOverlapping(revs, window.0, window.1)[0];
    var k := WindowIsTail(revs, window.0, window.1);
    assert p == Periods(revs, window.1)[k];
    var j := InLongerList(revs, window.1, Max(window.1, p.end), k);
    LaterEnd(window.1, p.end);
    OnePeriod(revs, Max(window.1, p.end), j);
  }

  lemma LaterEnd(x: Date, y: Date)
    ensures x <= Max(x, y) && y <= Max(x, y)
  {
  }

  /** A period seen up to one horizon is seen up to any later one. */
  lemma InLongerList(revs: seq<Revision>, near: Date, far: Date, k: nat) returns (j: nat)
    requires ValidRevisions(revs) && revs != [] && near <= far && k < |Periods(revs, near)|
    ensures j < |Periods(revs, far)| && Periods(revs, far)[j] == Periods(revs, near)[k]
  {
    var first, p := revs[0].effectiveFrom, Periods(revs, near)[k];
    WindowShape(revs, first, near);
    NarrowerWindow(revs, first, near, first, far);
    FilterMembers(Periods(revs, far), Overlaps(first, near));
    assert p in Periods(revs, near);
    j :| 0 <= j < |Periods(revs, far)| && Periods(revs, far)[j] == p;
  }

  /** The carry depends on the first period alone. */
  lemma RolloverOfFirst(fx: Rates, revs: seq<Revision>, ledger: seq<Posting>, ps: seq<ResolvedPeriod>)
    requires ValidBudget(revs) && ps != [] && AllWellCapped(ps)
    ensures AllWellCapped([ps[0]])
    ensures RolloverInto(fx, revs, ledger, ps) == RolloverInto(fx, revs, ledger, [ps[0]])
  {
    hide CarryInto, ChainParts, CarryChainStart, PeriodsOverlapping, ValidBudget;
  }

  /** Every view of a budget, any window and any query, starts from the rollover of its first period as a whole. */
  lemma RolloverIgnoresTheView(fx: Rates, revs: seq<Revision>, ledger: seq<Posting>, window: (Date, Date),
                               keys: Option<set<PostingKey>>)
    requires ValidBudget(revs) && PeriodsOverlapping(revs, window.0, window.1) != []
    ensures var p := PeriodsOverlapping(revs, window.0, window.1)[0];
            StatusOf(fx, revs, ledger, window, keys).rollover == PeriodStatus(fx, revs, ledger, p).rollover
  {
    hide *;
    BudgetHasRevisions(revs);
    FirstPeriodAlone(revs, window);
    var ps := PeriodsOverlapping(revs, window.0, window.1);
    StatusParts(fx, revs, ledger, window, keys);
    StatusParts(fx, revs, ledger, (ps[0].start, ps[0].end), None);
    RolloverOfFirst(fx, revs, ledger, ps);
    PeriodStatusIs(fx, revs, ledger, ps[0]);
  }

  /** The first period of a budget receives nothing. */
  lemma FirstRolloverIsZero(fx: Rates, revs: seq<Revision>, ledger: seq<Posting>, horizon: Date)
    requires ValidBudget(revs) && revs != []
    requires Periods(revs, horizon) != [] && Periods(revs, horizon)[0].end <= horizon
    ensures PeriodStatus(fx, revs, ledger, Periods(revs, horizon)[0]).rollover == 0.0
  {
    hide *;
    BudgetHasRevisions(revs);
    StatusOfPeriod(fx, revs, ledger, horizon, 0);
    FirstChain(Periods(revs, horizon));
    FreshCarry(fx, ledger, Periods(revs, horizon), 0);
  }

  /**
   * The rollover recurrence. A surplus crosses into the next period unless either period resets or the next is
   * custom. Carrying forward, the next period receives this one's available amount whole; capping, that amount
   * kept between zero and a target that is not negative, or a negative target whatever the amount.
   */
  lemma RolloverRecurrence(fx: Rates, revs: seq<Revision>, ledger: seq<Posting>, horizon: Date, k: nat)
    requires ValidBudget(revs) && revs != []
    requires k + 1 < |Periods(revs, horizon)| && Periods(revs, horizon)[k + 1].end <= horizon
    ensures var src, dst := Periods(revs, horizon)[k].revision, Periods(revs, horizon)[k + 1].revision;
            var surplus := PeriodStatus(fx, revs, ledger, Periods(revs, horizon)[k]).available;
            var received := PeriodStatus(fx, revs, ledger, Periods(revs, horizon)[k + 1]).rollover;
            if src.rollover == ResetToZero || dst.rollover == ResetToZero || dst.period.Custom? then received == 0.0
            else if dst.rollover == CarryForward then received == surplus
            else
              && dst.target.Some?
              && var cap := dst.target.value.value;
                 && (cap < 0.0 ==> received == cap)
                 && (surplus < 0.0 <= cap ==> received == 0.0)
                 && (0.0 <= surplus <= cap ==> received == surplus)
                 && (0.0 <= cap < surplus ==> received == cap)
  {
    var src, dst := Periods(revs, horizon)[k].revision, Periods(revs, horizon)[k + 1].revision;
    var surplus := PeriodStatus(fx, revs, ledger, Periods(revs, horizon)[k]).available;
    RolloverStep(fx, revs, ledger, horizon, k);
    PolicyMeaning(dst, surplus);
    hide Periods, PeriodStatus, ApplyRolloverPolicy, ValidBudget;
    assert BoundaryCarries(src, dst) <==>
           !(src.rollover == ResetToZero || dst.rollover == ResetToZero || dst.period.Custom?);
  }

  /** The recurrence in terms of the fold's own policy function. */
  lemma RolloverStep(fx: Rates, revs: seq<Revision>, ledger: seq<Posting>, horizon: Date, k: nat)
    requires ValidBudget(revs) && revs != []
    requires k + 1 < |Periods(revs, horizon)| && Periods(revs, horizon)[k + 1].end <= horizon
    ensures WellCapped(Periods(revs, horizon)[k + 1].revision)
    ensures var p, q := Periods(revs, horizon)[k], Periods(revs, horizon)[k + 1];
            PeriodStatus(fx, revs, ledger, q).rollover ==
            if BoundaryCarries(p.revision, q.revision) then ApplyRolloverPolicy(q.revision, PeriodStatus(fx, revs, ledger, p).available)
            else 0.0
  {
    hide *;
    EarlierEnds(revs, horizon, k);
    StatusOfPeriod(fx, revs, ledger, horizon, k);
    StatusOfPeriod(fx, revs, ledger, horizon, k + 1);
    CarryAtStep(fx, ledger, Periods(revs, horizon), k);
  }

  lemma EarlierEnds(revs: seq<Revision>, horizon: Date, k: nat)
    requires ValidBudget(revs) && revs != [] && k + 1 < |Periods(revs, horizon)| &&
             Periods(revs, horizon)[k + 1].end <= horizon
    ensures ValidRevisions(revs) && Periods(revs, horizon)[k].end <= horizon
  {
    PeriodsShape(revs, horizon);
    ChainedStarts(Periods(revs, horizon), k, k + 1);
  }

  lemma CarryAtStep(fx: Rates, ledger: seq<Posting>, all: seq<ResolvedPeriod>, k: nat)
    requires k + 1 < |all| && AllWellCapped(Chain(all, k)) && WellCapped(all[k].revision)
    requires AllWellCapped(Chain(all, k + 1)) && WellCapped(all[k + 1].revision)
    ensures CarryAt(fx, ledger, all, k + 1) ==
            if BoundaryCarries(all[k].revision, all[k + 1].revision)
            then ApplyRolloverPolicy(all[k + 1].revision, WholeShare(all[k]) + CarryAt(fx, ledger, all, k)
                                                          - Spent(fx, all[k], ChainBucket(ledger, all[k])).total)
            else 0.0
  {
    ChainStep(all, k);
    var chain, p, dst := Chain(all, k), all[k], all[k + 1].revision;
    var more := Chain(all, k + 1);
    hide *;
    if BoundaryCarries(p.revision, dst) {
      assert more == chain + [p];
      PartsAppend(ledger, chain, p);
      CarryIgnoresLater(fx, chain, ChainParts(ledger, chain), p, ChainBucket(ledger, p), |chain|, p.revision);
      CarryStep(fx, more, ChainParts(ledger, more), |chain|, dst);
    } else {
      NothingCarried(fx, more, ChainParts(ledger, more), dst);
    }
    CarryAtIs(fx, ledger, all, k);
    CarryAtIs(fx, ledger, all, k + 1);
  }

  lemma PartsAppend(ledger: seq<Posting>, chain: seq<ResolvedPeriod>, p: ResolvedPeriod)
    ensures ChainParts(ledger, chain + [p]) == ChainParts(ledger, chain) + [ChainBucket(ledger, p)]
  {
  }

  lemma CarryAtIs(fx: Rates, ledger: seq<Posting>, all: seq<ResolvedPeriod>, k: nat)
    requires k < |all| && AllWellCapped(Chain(all, k)) && WellCapped(all[k].revision)
    ensures CarryAt(fx, ledger, all, k) ==
            CarryInto(fx, Chain(all, k), ChainParts(ledger, Chain(all, k)), |Chain(all, k)|, all[k].revision)
  {
  }

  // ----- What no rate reached -----

  /**
   * What is reported unvalued follows the same chain: a period reports its own leftovers, and, where the
   * boundary before it carries, everything the period before it reports.
   */
  lemma UnvaluedRecurrence(fx: Rates, revs: seq<Revision>, ledger: seq<Posting>, horizon: Date, k: nat, c: Code)
    requires ValidBudget(revs) && revs != []
    requires k + 1 < |Periods(revs, horizon)| && Periods(revs, horizon)[k + 1].end <= horizon
    ensures var p, q := Periods(revs, horizon)[k], Periods(revs, horizon)[k + 1];
            var own := Get(ValuationOf(fx, revs, ledger, (q.start, q.end), None).unvalued, c);
            Get(PeriodStatus(fx, revs, ledger, q).unvalued, c) ==
            if p.revision.rollover == ResetToZero || q.revision.rollover == ResetToZero || q.revision.period.Custom? then own
            else own + Get(PeriodStatus(fx, revs, ledger, p).unvalued, c)
  {
    hide *;
    BudgetHasRevisions(revs);
    EarlierEnds(revs, horizon, k);
    var all := Periods(revs, horizon);
    UnvaluedOfPeriod(fx, revs, ledger, horizon, k, c);
    UnvaluedOfPeriod(fx, revs, ledger, horizon, k + 1, c);
    SpentIsListed(fx, revs, ledger, horizon, k);
    ChainLeftoversStep(fx, ledger, all, k);
    CarriesWhen(all[k].revision, all[k + 1].revision);
    NothingThere(c);
  }

  lemma NothingThere(c: Code)
    ensures Get(map[], c) == 0.0
  {
  }

  lemma CarriesWhen(src: Revision, dst: Revision)
    ensures BoundaryCarries(src, dst) <==>
            !(src.rollover == ResetToZero || dst.rollover == ResetToZero || dst.period.Custom?)
  {
  }

  /** What the periods of the chain before period `k` leave over. */
  ghost function LeftBefore(fx: Rates, ledger: seq<Posting>, all: seq<ResolvedPeriod>, k: nat): Balances
    requires k < |all|
  {
    ChainLeftovers(fx, Chain(all, k), ChainParts(ledger, Chain(all, k)), |Chain(all, k)|)
  }

  /** A whole period reports its own leftovers and its chain's. */
  lemma UnvaluedOfPeriod(fx: Rates, revs: seq<Revision>, ledger: seq<Posting>, horizon: Date, k: nat, c: Code)
    requires ValidBudget(revs) && revs != []
    requires k < |Periods(revs, horizon)| && Periods(revs, horizon)[k].end <= horizon
    ensures var p := Periods(revs, horizon)[k];
            Get(PeriodStatus(fx, revs, ledger, p).unvalued, c) ==
            Get(ValuationOf(fx, revs, ledger, (p.start, p.end), None).unvalued, c) + Get(LeftBefore(fx, ledger, Periods(revs, horizon), k), c)
  {
    hide *;
    BudgetHasRevisions(revs);
    var p := Periods(revs, horizon)[k];
    OnePeriod(revs, horizon, k);
    PeriodStatusIs(fx, revs, ledger, p);
    UnvaluedOfStatus(fx, revs, ledger, (p.start, p.end), None, c);
    ChainUnvaluedIs(fx, revs, ledger, horizon, k);
  }

  lemma UnvaluedOfStatus(fx: Rates, revs: seq<Revision>, ledger: seq<Posting>, window: (Date, Date),
                         keys: Option<set<PostingKey>>, c: Code)
    requires ValidBudget(revs)
    ensures Get(StatusOf(fx, revs, ledger, window, keys).unvalued, c) ==
            Get(ValuationOf(fx, revs, ledger, window, keys).unvalued, c)
            + Get(ChainUnvalued(fx, revs, ledger, PeriodsOverlapping(revs, window.0, window.1)), c)
  {
    StatusParts(fx, revs, ledger, window, keys);
    hide StatusOf, PeriodsOverlapping, WindowParts, WindowCommodity, ProratedTarget, WindowTotal, RolloverInto, Leftovers, ValueBuckets,
         ChainUnvalued, ValidBudget, AllWellCapped, Plus, Get;
  }

  lemma ChainUnvaluedIs(fx: Rates, revs: seq<Revision>, ledger: seq<Posting>, horizon: Date, k: nat)
    requires ValidBudget(revs) && revs != [] && k < |Periods(revs, horizon)|
    ensures ChainUnvalued(fx, revs, ledger, [Periods(revs, horizon)[k]]) == LeftBefore(fx, ledger, Periods(revs, horizon), k)
  {
    var all := Periods(revs, horizon);
    ChainStartIsChain(revs, horizon, k);
    if Chain(all, k) != [] {
      ChainPeriodsAreChain(revs, horizon, k);
    }
    assert CarryChain(revs, [all[k]]) == Chain(all, k);
    hide CarryChain, Chain, ChainLeftovers, ChainParts, Periods, ValidBudget;
  }

  /** What a whole period leaves over is what its own listing does. */
  lemma SpentIsListed(fx: Rates, revs: seq<Revision>, ledger: seq<Posting>, horizon: Date, k: nat)
    requires ValidBudget(revs) && revs != []
    requires k < |Periods(revs, horizon)| && Periods(revs, horizon)[k].end <= horizon
    ensures var p := Periods(revs, horizon)[k];
            ValuationOf(fx, revs, ledger, (p.start, p.end), None).unvalued == Spent(fx, p, ChainBucket(ledger, p)).unvalued
  {
    var p := Periods(revs, horizon)[k];
    OnePeriod(revs, horizon, k);
    PeriodsShape(revs, horizon);
    WholeWindowPart(ledger, p);
    OnePeriodAgreesWithFold(fx, p, ChainBucket(ledger, p));
    hide Periods, PeriodsOverlapping, WindowParts, ChainBucket, WindowCommodity, ValueBuckets, Leftovers, Actuals, ActualsOf, ValidBudget;
  }

  lemma ChainLeftoversStep(fx: Rates, ledger: seq<Posting>, all: seq<ResolvedPeriod>, k: nat)
    requires k + 1 < |all|
    ensures LeftBefore(fx, ledger, all, k + 1) ==
            if BoundaryCarries(all[k].revision, all[k + 1].revision)
            then Plus(LeftBefore(fx, ledger, all, k), Spent(fx, all[k], ChainBucket(ledger, all[k])).unvalued) else map[]
  {
    ChainStep(all, k);
    var chain, more := Chain(all, k), Chain(all, k + 1);
    if BoundaryCarries(all[k].revision, all[k + 1].revision) {
      PartsAppend(ledger, chain, all[k]);
      hide Chain, ChainParts, ChainBucket, Spent, Plus, BoundaryCarries;
      LeftoversIgnoreLater(fx, chain, ChainParts(ledger, chain), all[k], ChainBucket(ledger, all[k]), |chain|);
    }
  }

  lemma {:induction false} LeftoversIgnoreLater(fx: Rates, chain: seq<ResolvedPeriod>, buckets: seq<seq<Posting>>,
                                                last: ResolvedPeriod,
                                                bucket: seq<Posting>, n: nat)
    requires n <= |chain| == |buckets|
    ensures ChainLeftovers(fx, chain + [last], buckets + [bucket], n) == ChainLeftovers(fx, chain, buckets, n)
  {
    hide Spent, Plus;
    if n == 0 {
    } else {
      LeftoversIgnoreLater(fx, chain, buckets, last, bucket, n - 1);
    }
  }

  // ----- Carrying everything forward -----

  /** Period `k` carries its whole surplus in, on an anchored grid. */
  predicate CarriesInWhole(all: seq<ResolvedPeriod>, k: nat)
    requires k < |all|
  {
    all[k].revision.rollover.CarryForward? && AcceptsCarry(all[k].revision)
  }

  ghost function NetOf(fx: Rates, revs: seq<Revision>, ledger: seq<Posting>): ResolvedPeriod -> Decimal
    requires ValidBudget(revs)
  {
    (p: ResolvedPeriod) => PeriodStatus(fx, revs, ledger, p).allocation - PeriodStatus(fx, revs, ledger, p).actuals
  }

  /** The period where a chain starts receives nothing itself. */
  lemma {:induction false} ChainStartsFresh(all: seq<ResolvedPeriod>, prior: seq<ResolvedPeriod>)
    requires prior <= all && ChainFrom(prior) < |prior|
    ensures Chain(all, ChainFrom(prior)) == []
  {
    var last := |prior| - 1;
    assert prior[last] == all[last] && prior[..last] <= all;
    if !prior[last].revision.period.Custom? {
      if ChainFrom(prior[..last]) < last {
        ChainStartsFresh(all, prior[..last]);
      } else {
        assert all[..last] == prior[..last];
      }
    }
  }

  /** Every period after `start`, up to `k`, carries everything in; `start` itself passes its surplus on. */
  predicate CarriesForward(all: seq<ResolvedPeriod>, start: nat, k: nat) {
    && start <= k < |all|
    && (start < k ==> Carries(all[start].revision))
    && forall j :: start < j <= k ==> CarriesInWhole(all, j)
  }

  /**
   * Where every period after the chain's first carries everything forward, what is available telescopes:
   * all that was allocated since the chain's start, less all that was spent.
   */
  lemma {:induction false} AvailableTelescopes(fx: Rates, revs: seq<Revision>, ledger: seq<Posting>, horizon: Date,
                                               start: nat, k: nat)
    requires ValidBudget(revs) && revs != []
    requires CarriesForward(Periods(revs, horizon), start, k) && Periods(revs, horizon)[k].end <= horizon
    requires Chain(Periods(revs, horizon), start) == []
    ensures PeriodStatus(fx, revs, ledger, Periods(revs, horizon)[k]).available ==
            Sum(Periods(revs, horizon)[start..k + 1], NetOf(fx, revs, ledger))
    decreases k
  {
    hide *;
    BudgetHasRevisions(revs);
    RunIsInside(Periods(revs, horizon), start, k);
    if k == start {
      FreshStatus(fx, revs, ledger, horizon, k);
    } else {
      EarlierEnds(revs, horizon, k - 1);
      AvailableTelescopes(fx, revs, ledger, horizon, start, k - 1);
      TelescopeStep(fx, revs, ledger, horizon, start, k);
    }
  }

  lemma BudgetHasRevisions(revs: seq<Revision>)
    requires ValidBudget(revs)
    ensures ValidRevisions(revs)
  {
  }

  lemma RunIsInside(all: seq<ResolvedPeriod>, start: nat, k: nat)
    requires CarriesForward(all, start, k)
    ensures start <= k < |all| && (start < k ==> CarriesForward(all, start, k - 1))
  {
  }

  lemma FreshStatus(fx: Rates, revs: seq<Revision>, ledger: seq<Posting>, horizon: Date, k: nat)
    requires ValidBudget(revs) && revs != []
    requires k < |Periods(revs, horizon)| && Periods(revs, horizon)[k].end <= horizon &&
             Chain(Periods(revs, horizon), k) == []
    ensures PeriodStatus(fx, revs, ledger, Periods(revs, horizon)[k]).available ==
            Sum(Periods(revs, horizon)[k..k + 1], NetOf(fx, revs, ledger))
  {
    hide *;
    BudgetHasRevisions(revs);
    var p := Periods(revs, horizon)[k];
    StatusOfPeriod(fx, revs, ledger, horizon, k);
    NetIs(fx, revs, ledger, p);
    FreshCarry(fx, ledger, Periods(revs, horizon), k);
    assert Periods(revs, horizon)[k..k + 1] == [p];
    SumOne(p, NetOf(fx, revs, ledger));
  }

  lemma TelescopeStep(fx: Rates, revs: seq<Revision>, ledger: seq<Posting>, horizon: Date, start: nat, k: nat)
    requires ValidBudget(revs) && revs != []
    requires start < k && CarriesForward(Periods(revs, horizon), start, k) && Periods(revs, horizon)[k].end <= horizon
    requires PeriodStatus(fx, revs, ledger, Periods(revs, horizon)[k - 1]).available ==
             Sum(Periods(revs, horizon)[start..k], NetOf(fx, revs, ledger))
    ensures PeriodStatus(fx, revs, ledger, Periods(revs, horizon)[k]).available ==
            Sum(Periods(revs, horizon)[start..k + 1], NetOf(fx, revs, ledger))
  {
    hide *;
    BudgetHasRevisions(revs);
    var all := Periods(revs, horizon);
    RunIsInside(all, start, k);
    StatusOfPeriod(fx, revs, ledger, horizon, k);
    CarriedWhole(all, start, k, PeriodStatus(fx, revs, ledger, all[k - 1]).available);
    RolloverStep(fx, revs, ledger, horizon, k - 1);
    NetIs(fx, revs, ledger, all[k]);
    assert all[start..k + 1] == all[start..k] + [all[k]];
    SumAppend(all[start..k], all[k], NetOf(fx, revs, ledger));
  }

  lemma NetIs(fx: Rates, revs: seq<Revision>, ledger: seq<Posting>, p: ResolvedPeriod)
    requires ValidBudget(revs)
    ensures NetOf(fx, revs, ledger)(p) ==
            PeriodStatus(fx, revs, ledger, p).allocation - PeriodStatus(fx, revs, ledger, p).actuals
  {
    hide PeriodStatus;
  }

  lemma CarriedWhole(all: seq<ResolvedPeriod>, start: nat, k: nat, surplus: Decimal)
    requires start < k && CarriesForward(all, start, k) && WellCapped(all[k].revision)
    ensures BoundaryCarries(all[k - 1].revision, all[k].revision) &&
            ApplyRolloverPolicy(all[k].revision, surplus) == surplus
  {
    assert CarriesInWhole(all, k);
    if start < k - 1 {
      assert CarriesInWhole(all, k - 1);
    }
  }

  lemma FreshCarry(fx: Rates, ledger: seq<Posting>, all: seq<ResolvedPeriod>, k: nat)
    requires k < |all| && AllWellCapped(Chain(all, k)) && WellCapped(all[k].revision) && Chain(all, k) == []
    ensures CarryAt(fx, ledger, all, k) == 0.0
  {
    NothingCarried(fx, [], ChainParts(ledger, []), all[k].revision);
  }

  /** A capped period with a non-negative target never receives less than zero or more than its target. */
  lemma CappedRolloverIsWithinTarget(fx: Rates, revs: seq<Revision>, ledger: seq<Posting>, horizon: Date, k: nat)
    requires ValidBudget(revs) && revs != [] && k < |Periods(revs, horizon)| && Periods(revs, horizon)[k].end <= horizon
    requires var rev := Periods(revs, horizon)[k].revision;
             rev.rollover.CapAtTarget? && rev.target.Some? && 0.0 <= rev.target.value.value
    ensures 0.0 <= PeriodStatus(fx, revs, ledger, Periods(revs, horizon)[k]).rollover <= Periods(revs, horizon)[k].revision.target.value.value
  {
    hide *;
    BudgetHasRevisions(revs);
    if k == 0 {
      FirstRolloverIsZero(fx, revs, ledger, horizon);
    } else {
      RolloverRecurrence(fx, revs, ledger, horizon, k - 1);
    }
  }
}
