/** A surplus folded forward, period by period, through each destination's rollover policy. */
module RolloverFold {
  import opened Prelude
  import opened Balances
  import opened Timeline
  import opened Postings
  import opened Valuation
  import opened WindowValues
  import opened Proration

  /** A capping policy has a target to cap at. */
  predicate WellCapped(rev: Revision) {
    rev.rollover.CapAtTarget? ==> rev.target.Some?
  }

  /** The carry `dst` accepts from a surplus. */
  function ApplyRolloverPolicy(dst: Revision, surplus: Decimal): Decimal
    requires WellCapped(dst)
  {
    match dst.rollover
    case CarryForward => surplus
    case CapAtTarget =>
      var cap, positive := dst.target.value.value, if surplus < 0.0 then 0.0 else surplus;
      if positive <= cap then positive else cap
    case ResetToZero => 0.0
  }

  /** A capped carry lies in `[0, target]`, whatever the surplus, exactly when the target is not negative. */
  lemma CappedCarryIsWithinTarget(dst: Revision)
    requires WellCapped(dst) && dst.rollover.CapAtTarget?
    ensures (forall surplus :: 0.0 <= ApplyRolloverPolicy(dst, surplus) <= dst.target.value.value) <==>
            0.0 <= dst.target.value.value
  {
    if dst.target.value.value < 0.0 {
      assert ApplyRolloverPolicy(dst, 0.0) < 0.0;
    }
  }

  /**
   * Each policy, written out: a capped carry is the surplus kept between zero and the target, or a negative target
   * itself.
   */
  lemma PolicyMeaning(dst: Revision, surplus: Decimal)
    requires WellCapped(dst)
    ensures dst.rollover.ResetToZero? ==> ApplyRolloverPolicy(dst, surplus) == 0.0
    ensures dst.rollover.CarryForward? ==> ApplyRolloverPolicy(dst, surplus) == surplus
    ensures dst.rollover.CapAtTarget? && 0.0 <= dst.target.value.value ==>
              && (surplus < 0.0 ==> ApplyRolloverPolicy(dst, surplus) == 0.0)
              && (0.0 <= surplus <= dst.target.value.value ==> ApplyRolloverPolicy(dst, surplus) == surplus)
              && (surplus > dst.target.value.value ==> ApplyRolloverPolicy(dst, surplus) == dst.target.value.value)
    ensures dst.rollover.CapAtTarget? && dst.target.value.value < 0.0 ==>
              ApplyRolloverPolicy(dst, surplus) == dst.target.value.value
  {
  }

  predicate AllWellCapped(ps: seq<ResolvedPeriod>) {
    forall k :: 0 <= k < |ps| ==> WellCapped(ps[k].revision)
  }

  /** What a whole period spends, native amounts folded under its own revision. */
  ghost function Spent(fx: Rates, p: ResolvedPeriod, bucket: seq<Posting>): PeriodActuals {
    ActualsOf(fx, p.revision, Amounts(bucket))
  }

  function WholeShare(p: ResolvedPeriod): Decimal {
    PeriodShare(p.revision, p.start, p.start, p.end)
  }

  /** The carry out of the first `n` periods of `chain`, into a period `dst` governs. */
  ghost function CarryInto(fx: Rates, chain: seq<ResolvedPeriod>, buckets: seq<seq<Posting>>, n: nat,
                           dst: Revision): Decimal
    requires n <= |chain| == |buckets| && AllWellCapped(chain) && WellCapped(dst)
  {
    if n == 0 then 0.0
    else
      var received := CarryInto(fx, chain, buckets, n - 1, chain[n - 1].revision);
      ApplyRolloverPolicy(dst, WholeShare(chain[n - 1]) + received - Spent(fx, chain[n - 1], buckets[n - 1]).total)
  }

  /** Every native amount in the first `n` periods that fed no total. */
  ghost function ChainLeftovers(fx: Rates, chain: seq<ResolvedPeriod>, buckets: seq<seq<Posting>>, n: nat): Balances
    requires n <= |chain| == |buckets|
  {
    if n == 0 then map[]
    else Plus(ChainLeftovers(fx, chain, buckets, n - 1), Spent(fx, chain[n - 1], buckets[n - 1]).unvalued)
  }

  /** Adds every entry of `from` into `into`. */
  method MergeUnvalued(into: Balances, from: Balances) returns (merged: Balances)
    ensures merged == Plus(into, from)
  {
    merged := into;
    var rest := from.Keys;
    while rest != {}
      invariant rest <= from.Keys
      invariant forall c :: Get(merged, c) == Get(into, c) + if c in rest then 0.0 else Get(from, c)
      decreases |rest|
    {
      var code :| code in rest;
      merged := AddAmount(merged, Amount(from[code], code));
      rest := rest - {code};
    }
    SameTotalsAreEqual(merged, Plus(into, from));
  }

  method FoldRollover(fx: Rates, dst: Revision, chain: seq<ResolvedPeriod>, buckets: seq<seq<Posting>>)
    returns (carry: Decimal, unvalued: Balances)
    requires |chain| == |buckets| && AllWellCapped(chain) && WellCapped(dst)
    ensures carry == CarryInto(fx, chain, buckets, |chain|, dst)
    ensures unvalued == ChainLeftovers(fx, chain, buckets, |chain|)
  {
    hide *;
    carry, unvalued := 0.0, map[];
    NothingCarried(fx, chain, buckets, Next(chain, 0, dst));
    for k := 0 to |chain|
      invariant carry == CarryInto(fx, chain, buckets, k, Next(chain, k, dst))
      invariant unvalued == ChainLeftovers(fx, chain, buckets, k)
    {
      CarryStep(fx, chain, buckets, k, Next(chain, k + 1, dst));
      LeftoversStep(fx, chain, buckets, k);
      NextIs(chain, k, dst);
      var spent := FoldPeriod(fx, chain[k], buckets[k]);
      unvalued := MergeUnvalued(unvalued, spent.unvalued);
      carry := ApplyRolloverPolicy(Next(chain, k + 1, dst), WholeShare(chain[k]) + carry - spent.total);
    }
    NextIs(chain, |chain|, dst);
  }

  lemma NothingCarried(fx: Rates, chain: seq<ResolvedPeriod>, buckets: seq<seq<Posting>>, dst: Revision)
    requires |chain| == |buckets| && AllWellCapped(chain) && WellCapped(dst)
    ensures CarryInto(fx, chain, buckets, 0, dst) == 0.0 && ChainLeftovers(fx, chain, buckets, 0) == map[]
  {
  }

  method FoldPeriod(fx: Rates, p: ResolvedPeriod, bucket: seq<Posting>) returns (spent: PeriodActuals)
    ensures spent == Spent(fx, p, bucket)
  {
    spent := FoldActuals(fx, p.revision, Amounts(bucket));
  }

  /** The revision of period `k`, or `dst` past the end of the chain. */
  function Next(chain: seq<ResolvedPeriod>, k: nat, dst: Revision): (next: Revision)
    requires k <= |chain| && AllWellCapped(chain) && WellCapped(dst)
    ensures WellCapped(next)
  {
    if k < |chain| then chain[k].revision else dst
  }

  lemma NextIs(chain: seq<ResolvedPeriod>, k: nat, dst: Revision)
    requires k <= |chain| && AllWellCapped(chain) && WellCapped(dst)
    ensures Next(chain, k, dst) == if k < |chain| then chain[k].revision else dst
  {
  }

  lemma CappedAt(ps: seq<ResolvedPeriod>, k: nat)
    requires k < |ps| && AllWellCapped(ps)
    ensures WellCapped(ps[k].revision)
  {
  }

  lemma CarryStep(fx: Rates, chain: seq<ResolvedPeriod>, buckets: seq<seq<Posting>>, k: nat, dst: Revision)
    requires k < |chain| == |buckets| && AllWellCapped(chain) && WellCapped(dst)
    ensures WellCapped(chain[k].revision)
    ensures CarryInto(fx, chain, buckets, k + 1, dst) ==
            ApplyRolloverPolicy(dst, WholeShare(chain[k]) + CarryInto(fx, chain, buckets, k, chain[k].revision)
                                     - Spent(fx, chain[k], buckets[k]).total)
  {
    hide Spent, WholeShare, ApplyRolloverPolicy, AllWellCapped, WellCapped;
    assert WellCapped(chain[k].revision) by {
      CappedAt(chain, k);
    }
  }

  lemma LeftoversStep(fx: Rates, chain: seq<ResolvedPeriod>, buckets: seq<seq<Posting>>, k: nat)
    requires k < |chain| == |buckets|
    ensures ChainLeftovers(fx, chain, buckets, k + 1) ==
            Plus(ChainLeftovers(fx, chain, buckets, k), Spent(fx, chain[k], buckets[k]).unvalued)
  {
    hide Spent, Plus;
  }

  /** Periods before the `n`-th decide the carry; those after it do not. */
  lemma {:induction false} CarryIgnoresLater(fx: Rates, chain: seq<ResolvedPeriod>, buckets: seq<seq<Posting>>,
                                             last: ResolvedPeriod,
                                             bucket: seq<Posting>, n: nat, dst: Revision)
    requires n <= |chain| == |buckets| && AllWellCapped(chain) && AllWellCapped(chain + [last]) && WellCapped(dst)
    ensures CarryInto(fx, chain + [last], buckets + [bucket], n, dst) == CarryInto(fx, chain, buckets, n, dst)
  {
    hide ApplyRolloverPolicy, WholeShare, Spent, AllWellCapped, WellCapped;
    if n == 0 {
    } else {
      assert WellCapped(chain[n - 1].revision) by {
        CappedAt(chain, n - 1);
      }
      CarryIgnoresLater(fx, chain, buckets, last, bucket, n - 1, chain[n - 1].revision);
    }
  }
}
