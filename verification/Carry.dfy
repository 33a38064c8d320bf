/** How far back a surplus can carry into a period, in terms of the budget's whole period list. */
module Carry {
  import opened Prelude
  import opened Seqs
  import opened Timeline

  /** Anything but a reset passes its surplus on. */
  predicate Carries(rev: Revision) {
    !rev.rollover.ResetToZero?
  }

  /** A period takes a carry in when it carries and its grid is anchored. */
  predicate AcceptsCarry(rev: Revision) {
    Carries(rev) && !rev.period.Custom?
  }

  /** A surplus crosses from `src` into `dst`. */
  predicate BoundaryCarries(src: Revision, dst: Revision) {
    Carries(src) && AcceptsCarry(dst)
  }

  function EndsBy(date: Date): ResolvedPeriod -> bool {
    (p: ResolvedPeriod) => p.end <= date
  }

  /** Where the unbroken run of carrying periods at the end of `prior` starts. */
  function WalkBack(prior: seq<ResolvedPeriod>): Option<Date> {
    if prior == [] then None
    else
      var last := prior[|prior| - 1];
      if !Carries(last.revision) then None
      else if last.revision.period.Custom? then Some(last.start)
      else
        match WalkBack(prior[..|prior| - 1])
        case None => Some(last.start)
        case Some(earlier) => Some(earlier)
  }

  /** The backward walk from `date`, or none where no governing revision takes a carry there. */
  function CarryChainStart(revs: seq<Revision>, date: Date): Option<Date>
    requires ValidRevisions(revs)
  {
    match Governing(revs, date)
    case None => None
    case Some(i) =>
      if !AcceptsCarry(revs[i]) then None
      else WalkBack(Filter(PeriodsOverlapping(revs, revs[0].effectiveFrom, date), EndsBy(date)))
  }

  // ----- The chain as a slice of the whole period list -----

  /** The budget's periods from its first revision up to `horizon`. */
  function Periods(revs: seq<Revision>, horizon: Date): seq<ResolvedPeriod>
    requires ValidRevisions(revs) && revs != []
  {
    PeriodsOverlapping(revs, revs[0].effectiveFrom, horizon)
  }

  /** The index in `prior` where the carry chain starts; its length when there is none. */
  function ChainFrom(prior: seq<ResolvedPeriod>): (m: nat)
    ensures m <= |prior|
  {
    if prior == [] then 0
    else
      var last := prior[|prior| - 1];
      if !Carries(last.revision) then |prior|
      else if last.revision.period.Custom? then |prior| - 1
      else ChainFrom(prior[..|prior| - 1])
  }

  lemma {:induction false} WalkBackIsChainFrom(prior: seq<ResolvedPeriod>)
    ensures WalkBack(prior) == if ChainFrom(prior) == |prior| then None else Some(prior[ChainFrom(prior)].start)
  {
    if prior == [] {
    } else {
      WalkBackIsChainFrom(prior[..|prior| - 1]);
    }
  }

  /** The periods whose surplus reaches period `k`. */
  function Chain(ps: seq<ResolvedPeriod>, k: nat): seq<ResolvedPeriod>
    requires k < |ps|
  {
    if AcceptsCarry(ps[k].revision) then ps[ChainFrom(ps[..k])..k] else []
  }

  /** A carrying boundary extends the chain by the period before it; any other boundary empties it. */
  lemma ChainStep(ps: seq<ResolvedPeriod>, k: nat)
    requires k + 1 < |ps|
    ensures Chain(ps, k + 1) == if BoundaryCarries(ps[k].revision, ps[k + 1].revision) then Chain(ps, k) + [ps[k]] else []
  {
    assert ps[..k + 1][..k] == ps[..k];
  }

  lemma FirstChain(ps: seq<ResolvedPeriod>)
    requires ps != []
    ensures Chain(ps, 0) == []
  {
  }

  lemma {:induction false} FilterSlice(ps: seq<ResolvedPeriod>, test: ResolvedPeriod -> bool, a: nat, b: nat)
    requires a <= b <= |ps|
    requires forall i :: 0 <= i < |ps| ==> (test(ps[i]) <==> a <= i < b)
    ensures Filter(ps, test) == ps[a..b]
    decreases |ps|
  {
    if ps == [] {
    } else {
      var last := |ps| - 1;
      if b <= last {
        FilterSlice(ps[..last], test, a, b);
      } else if a <= last {
        FilterSlice(ps[..last], test, a, last);
      } else {
        FilterNothing(ps, test);
      }
    }
  }

  lemma PeriodsShape(revs: seq<Revision>, horizon: Date)
    requires ValidRevisions(revs) && revs != []
    ensures Chained(Periods(revs, horizon))
    ensures forall k :: 0 <= k < |Periods(revs, horizon)| ==> Resolved(revs, Periods(revs, horizon)[k])
    ensures Periods(revs, horizon) != [] ==>
              Periods(revs, horizon)[0].start == revs[0].effectiveFrom && revs[0].effectiveFrom < horizon
    ensures forall k :: 0 <= k < |Periods(revs, horizon)| ==> Periods(revs, horizon)[k].start < horizon
  {
    WindowShape(revs, revs[0].effectiveFrom, horizon);
  }

  lemma {:induction false} ChainedStarts(ps: seq<ResolvedPeriod>, j: nat, k: nat)
    requires Chained(ps) && j <= k < |ps|
    ensures ps[j].start <= ps[k].start && (j < k ==> ps[j].end <= ps[k].start)
  {
    if j < k {
      ChainedOrder(ps, j, k);
    }
  }

  /** Between two period starts lie exactly the periods listed between them. */
  lemma Slice(revs: seq<Revision>, horizon: Date, a: nat, b: nat)
    requires ValidRevisions(revs) && revs != []
    requires a <= b < |Periods(revs, horizon)|
    ensures PeriodsOverlapping(revs, Periods(revs, horizon)[a].start, Periods(revs, horizon)[b].start) ==
            Periods(revs, horizon)[a..b]
  {
    var ps := Periods(revs, horizon);
    PeriodsShape(revs, horizon);
    ChainedStarts(ps, a, b);
    ChainedStarts(ps, 0, a);
    if a < b {
      var test := Overlaps(ps[a].start, ps[b].start);
      NarrowerWindow(revs, ps[a].start, ps[b].start, revs[0].effectiveFrom, horizon);
      forall i | 0 <= i < |ps| ensures test(ps[i]) <==> a <= i < b {
        if i < a {
          ChainedStarts(ps, i, a);
        } else if i < b {
          ChainedStarts(ps, a, i);
          ChainedStarts(ps, i, b);
        } else {
          ChainedStarts(ps, b, i);
        }
      }
      FilterSlice(ps, test, a, b);
    }
  }

  /** A window on exactly one period resolves to that period. */
  lemma OnePeriod(revs: seq<Revision>, horizon: Date, k: nat)
    requires ValidRevisions(revs) && revs != []
    requires k < |Periods(revs, horizon)| && Periods(revs, horizon)[k].end <= horizon
    ensures PeriodsOverlapping(revs, Periods(revs, horizon)[k].start, Periods(revs, horizon)[k].end) ==
            [Periods(revs, horizon)[k]]
  {
    var ps := Periods(revs, horizon);
    PeriodsShape(revs, horizon);
    ChainedStarts(ps, 0, k);
    var test := Overlaps(ps[k].start, ps[k].end);
    NarrowerWindow(revs, ps[k].start, ps[k].end, revs[0].effectiveFrom, horizon);
    forall i | 0 <= i < |ps| ensures test(ps[i]) <==> k <= i < k + 1 {
      if i < k {
        ChainedStarts(ps, i, k);
      } else if i > k {
        ChainedStarts(ps, k, i);
      }
    }
    FilterSlice(ps, test, k, k + 1);
    assert ps[k..k + 1] == [ps[k]];
  }

  lemma GoverningPeriod(revs: seq<Revision>, horizon: Date, k: nat)
    requires ValidRevisions(revs) && revs != [] && k < |Periods(revs, horizon)|
    ensures Governing(revs, Periods(revs, horizon)[k].start).Some?
    ensures revs[Governing(revs, Periods(revs, horizon)[k].start).value] == Periods(revs, horizon)[k].revision
  {
    var p := Periods(revs, horizon)[k];
    PeriodsShape(revs, horizon);
    var i :| LiesIn(revs, p, i);
    ReignGoverns(revs, i, p.start);
  }

  /** The walk back from period `k` finds the start of its chain in the period list. */
  lemma ChainStartIsChain(revs: seq<Revision>, horizon: Date, k: nat)
    requires ValidRevisions(revs) && revs != [] && k < |Periods(revs, horizon)|
    ensures var ps := Periods(revs, horizon);
            CarryChainStart(revs, ps[k].start) == if Chain(ps, k) == [] then None else Some(Chain(ps, k)[0].start)
  {
    var ps := Periods(revs, horizon);
    PeriodsShape(revs, horizon);
    GoverningPeriod(revs, horizon, k);
    Slice(revs, horizon, 0, k);
    assert ps[0..k] == ps[..k];
    forall i | 0 <= i < k ensures EndsBy(ps[k].start)(ps[..k][i]) {
      ChainedStarts(ps, i, k);
    }
    FilterEverything(ps[..k], EndsBy(ps[k].start));
    WalkBackIsChainFrom(ps[..k]);
  }

  /** The periods from the chain's start up to period `k` are the chain. */
  lemma ChainPeriodsAreChain(revs: seq<Revision>, horizon: Date, k: nat)
    requires ValidRevisions(revs) && revs != [] && k < |Periods(revs, horizon)|
    requires Chain(Periods(revs, horizon), k) != []
    ensures var ps := Periods(revs, horizon);
            PeriodsOverlapping(revs, Chain(ps, k)[0].start, ps[k].start) == Chain(ps, k)
  {
    var ps := Periods(revs, horizon);
    Slice(revs, horizon, ChainFrom(ps[..k]), k);
  }
}
