/** A window's periods, the chain before them, and the postings each of them is due. */
module WindowBuckets {
  import opened Prelude
  import opened Seqs
  import opened Timeline
  import opened Carry
  import opened Postings
  import opened LoadPlan
  import opened Proration

  /** The periods of the carry chain into the first of `ps`. */
  function CarryChain(revs: seq<Revision>, ps: seq<ResolvedPeriod>): seq<ResolvedPeriod>
    requires ValidRevisions(revs)
  {
    match ChainSpan(revs, ps)
    case Some(span) => PeriodsOverlapping(revs, span.0, span.1)
    case None => []
  }

  /** From the chain's start to the first of `ps`. */
  function ChainSpan(revs: seq<Revision>, ps: seq<ResolvedPeriod>): Option<(Date, Date)>
    requires ValidRevisions(revs)
  {
    if ps == [] then None
    else
      match CarryChainStart(revs, ps[0].start)
      case Some(start) => Some((start, ps[0].start))
      case None => None
  }

  /** Each period's own postings inside the window, under its own revision's tag filter and the query. */
  function WindowParts(ledger: seq<Posting>, ps: seq<ResolvedPeriod>, window: (Date, Date),
                       keys: Option<set<PostingKey>>)
    : (buckets: seq<seq<Posting>>)
    ensures |buckets| == |ps|
    ensures forall k :: 0 <= k < |ps| ==> buckets[k] == WindowBucket(ledger, ps[k], window, keys)
  {
    seq(|ps|, k requires 0 <= k < |ps| => WindowBucket(ledger, ps[k], window, keys))
  }

  function WindowBucket(ledger: seq<Posting>, p: ResolvedPeriod, window: (Date, Date),
                        keys: Option<set<PostingKey>>): seq<Posting> {
    FetchPostings(ledger, Max(p.start, window.0), Min(p.end, window.1), p.revision.tagFilter, keys)
  }

  /** Each chain period's postings, whole and without the query. */
  function ChainParts(ledger: seq<Posting>, chain: seq<ResolvedPeriod>): (buckets: seq<seq<Posting>>)
    ensures |buckets| == |chain|
    ensures forall k :: 0 <= k < |chain| ==> buckets[k] == ChainBucket(ledger, chain[k])
  {
    seq(|chain|, k requires 0 <= k < |chain| => ChainBucket(ledger, chain[k]))
  }

  function ChainBucket(ledger: seq<Posting>, p: ResolvedPeriod): seq<Posting> {
    FetchPostings(ledger, p.start, p.end, p.revision.tagFilter, None)
  }

  // ----- The window's periods in the budget's whole period list -----

  /** A window sees the tail of the budget's periods up to the window's end, from some period `k` on. */
  lemma WindowIsTail(revs: seq<Revision>, from: Date, until: Date) returns (k: nat)
    requires ValidRevisions(revs) && revs != [] && from < until
    ensures k <= |Periods(revs, until)| && PeriodsOverlapping(revs, from, until) == Periods(revs, until)[k..]
    ensures k > 0 ==> revs[0].effectiveFrom < from
  {
    var first := revs[0].effectiveFrom;
    if first < from {
      HalvesOfPeriods(revs, first, from, until);
      k := EndedBy(Periods(revs, until), from);
    } else if first >= until {
      WindowShape(revs, from, until);
      WindowShape(revs, first, until);
      k := 0;
    } else {
      k := 0;
      var ps := PeriodsOverlapping(revs, from, until);
      WindowShape(revs, from, until);
      NarrowerWindow(revs, first, until, from, until);
      forall i | 0 <= i < |ps| ensures Overlaps(first, until)(ps[i]) {
        assert Overlaps(from, until)(ps[i]);
      }
      hide *;
      FilterEverything(ps, Overlaps(first, until));
      FromTheFirst(revs, until);
    }
  }

  lemma FromTheFirst(revs: seq<Revision>, until: Date)
    requires ValidRevisions(revs) && revs != []
    ensures Periods(revs, until)[0..] == PeriodsOverlapping(revs, revs[0].effectiveFrom, until)
  {
  }

  /** What the segments need to know of a window's periods and the chain before them. */
  ghost predicate Fits(revs: seq<Revision>, chain: seq<ResolvedPeriod>, span: Option<(Date, Date)>,
                       ps: seq<ResolvedPeriod>, window: (Date, Date)) {
    && Chained(chain) && Chained(ps)
    && (forall k :: 0 <= k < |chain| ==> Resolved(revs, chain[k]))
    && (forall k :: 0 <= k < |ps| ==> Resolved(revs, ps[k]) && Overlaps(window.0, window.1)(ps[k]))
    && window.0 <= window.1 && (ps != [] ==> window.0 < window.1)
    && (span.None? <==> chain == [])
    && (span.Some? ==> chain[0].start == span.value.0 && chain[|chain| - 1].end == span.value.1 <= window.0)
  }

  lemma WindowFitsAlone(revs: seq<Revision>, window: (Date, Date))
    requires ValidRevisions(revs) && window.0 <= window.1
    ensures Fits(revs, [], None, PeriodsOverlapping(revs, window.0, window.1), window)
  {
    WindowShape(revs, window.0, window.1);
  }

  lemma SliceOfChained(ps: seq<ResolvedPeriod>, a: nat, b: nat)
    requires Chained(ps) && a <= b <= |ps|
    ensures Chained(ps[a..b])
  {
  }

  lemma ChainSpanIs(revs: seq<Revision>, ps: seq<ResolvedPeriod>, horizon: Date, k: nat)
    requires ValidRevisions(revs) && revs != [] && k < |Periods(revs, horizon)| && ps == Periods(revs, horizon)[k..]
    ensures var all := Periods(revs, horizon);
            && CarryChain(revs, ps) == Chain(all, k)
            && ChainSpan(revs, ps) == if Chain(all, k) == [] then None else Some((Chain(all, k)[0].start, all[k].start))
  {
    ChainStartIsChain(revs, horizon, k);
    if Chain(Periods(revs, horizon), k) != [] {
      ChainPeriodsAreChain(revs, horizon, k);
    }
  }

  lemma ChainFits(revs: seq<Revision>, all: seq<ResolvedPeriod>, k: nat, from: Date)
    requires Chained(all) && k < |all| && Chain(all, k) != [] && all[k].start <= from
    requires forall i :: 0 <= i < |all| ==> Resolved(revs, all[i])
    ensures var chain := Chain(all, k);
            && Chained(chain) && (forall i :: 0 <= i < |chain| ==> Resolved(revs, chain[i]))
            && chain[|chain| - 1].end == all[k].start
  {
    SliceOfChained(all, ChainFrom(all[..k]), k);
  }

  /** The first period of a window starts by the window's start, unless it is the budget's first. */
  lemma StartsByWindow(revs: seq<Revision>, window: (Date, Date), k: nat)
    requires ValidRevisions(revs) && revs != [] && PeriodsOverlapping(revs, window.0, window.1) != []
    requires k > 0 ==> revs[0].effectiveFrom < window.0
    ensures k > 0 ==> PeriodsOverlapping(revs, window.0, window.1)[0].start <= window.0
  {
    WindowShape(revs, window.0, window.1);
  }

  /** A window's periods with their carry chain fit, too. */
  lemma WindowFitsChain(revs: seq<Revision>, window: (Date, Date))
    requires ValidRevisions(revs) && window.0 <= window.1
    ensures var ps := PeriodsOverlapping(revs, window.0, window.1);
            Fits(revs, CarryChain(revs, ps), ChainSpan(revs, ps), ps, window)
  {
    var ps := PeriodsOverlapping(revs, window.0, window.1);
    WindowFitsAlone(revs, window);
    if ps == [] {
      assert ChainSpan(revs, ps) == None && CarryChain(revs, ps) == [];
    } else {
      assert revs != [] && window.0 < window.1 by { WindowShape(revs, window.0, window.1); }
      hide *;
      var k := WindowIsTail(revs, window.0, window.1);
      var all := Periods(revs, window.1);
      ChainSpanIs(revs, ps, window.1, k);
      PeriodsShape(revs, window.1);
      if Chain(all, k) == [] {
        FitsWithout(revs, ps, window, CarryChain(revs, ps), ChainSpan(revs, ps));
      } else {
        if k == 0 {
          FirstChain(all);
        }
        StartsByWindow(revs, window, k);
        ChainFits(revs, all, k, window.0);
        FitsWith(revs, ps, window, CarryChain(revs, ps), ChainSpan(revs, ps));
      }
    }
  }

  lemma FitsWithout(revs: seq<Revision>, ps: seq<ResolvedPeriod>, window: (Date, Date), chain: seq<ResolvedPeriod>,
                    span: Option<(Date, Date)>)
    requires Fits(revs, [], None, ps, window) && chain == [] && span.None?
    ensures Fits(revs, chain, span, ps, window)
  {
  }

  lemma FitsWith(revs: seq<Revision>, ps: seq<ResolvedPeriod>, window: (Date, Date), chain: seq<ResolvedPeriod>,
                 span: Option<(Date, Date)>)
    requires Fits(revs, [], None, ps, window)
    requires Chained(chain) && chain != [] && span == Some((chain[0].start, chain[|chain| - 1].end)) &&
             span.value.1 <= window.0
    requires forall i :: 0 <= i < |chain| ==> Resolved(revs, chain[i])
    ensures Fits(revs, chain, span, ps, window)
  {
    hide Chained, Resolved;
  }

  // ----- The plan fills every bucket with what its period is due -----

  lemma ChainOrder(ps: seq<ResolvedPeriod>, j: nat, k: nat)
    requires Chained(ps) && j <= k < |ps|
    ensures ps[j].start <= ps[k].start && ps[j].end <= ps[k].end && (j < k ==> ps[j].end <= ps[k].start)
  {
    if j < k {
      ChainedOrder(ps, j, k);
    }
  }

  lemma SegmentIsLong(revs: seq<Revision>, chain: seq<ResolvedPeriod>, span: Option<(Date, Date)>,
                      ps: seq<ResolvedPeriod>,
                      window: (Date, Date), i: nat)
    requires Fits(revs, chain, span, ps, window) && i < |chain| + |ps|
    ensures BucketSegments(chain, ps, window)[i].start < BucketSegments(chain, ps, window)[i].end
  {
    hide BucketSegments, Resolved;
    if i < |chain| {
      assert chain[i].start < chain[i].end;
    } else {
      var p := ps[i - |chain|];
      assert Overlaps(window.0, window.1)(p) && p.start < p.end;
    }
  }

  lemma SegmentsInOrder(revs: seq<Revision>, chain: seq<ResolvedPeriod>, span: Option<(Date, Date)>,
                        ps: seq<ResolvedPeriod>,
                        window: (Date, Date), i: nat, j: nat)
    requires Fits(revs, chain, span, ps, window) && i < j < |chain| + |ps|
    ensures BucketSegments(chain, ps, window)[i].end <= BucketSegments(chain, ps, window)[j].start
  {
    hide BucketSegments, Resolved, Chained, Overlaps;
    var segments := BucketSegments(chain, ps, window);
    if j < |chain| {
      ChainOrder(chain, i, j);
    } else {
      var k := j - |chain|;
      assert window.0 <= segments[|chain| + k].start && ps[k].start <= segments[|chain| + k].start;
      if i < |chain| {
        ChainOrder(chain, i, |chain| - 1);
      } else {
        var h := i - |chain|;
        assert segments[|chain| + h].end <= ps[h].end;
        ChainOrder(ps, h, k);
      }
    }
  }

  lemma SegmentsSorted(revs: seq<Revision>, chain: seq<ResolvedPeriod>, span: Option<(Date, Date)>,
                       ps: seq<ResolvedPeriod>, window: (Date, Date))
    requires Fits(revs, chain, span, ps, window)
    ensures SortedSegments(BucketSegments(chain, ps, window))
  {
    hide Fits, BucketSegments;
    var segments := BucketSegments(chain, ps, window);
    forall i | 0 <= i < |segments| ensures segments[i].start < segments[i].end {
      SegmentIsLong(revs, chain, span, ps, window, i);
    }
    forall i, j | 0 <= i < j < |segments| ensures segments[i].end <= segments[j].start {
      SegmentsInOrder(revs, chain, span, ps, window, i, j);
    }
  }

  /** A resolved period's dates, clipped or not, lie within the reign of its own revision. */
  lemma ReignOf(revs: seq<Revision>, p: ResolvedPeriod, s: Segment) returns (r: nat)
    requires Resolved(revs, p) && p.start <= s.start && s.end <= p.end
    ensures WithinReign(revs, s, r) && revs[r] == p.revision
  {
    r :| LiesIn(revs, p, r);
  }

  lemma ChainBucketIsFilled(ledger: seq<Posting>, revs: seq<Revision>, chain: seq<ResolvedPeriod>,
                            span: Option<(Date, Date)>,
                            ps: seq<ResolvedPeriod>, window: (Date, Date), hasQuery: bool,
                            keys: Option<set<PostingKey>>, i: nat)
    requires keys.Some? ==> hasQuery
    requires ValidRevisions(revs) && Fits(revs, chain, span, ps, window) && i < |chain|
    ensures Gathered(ledger, Loads(revs, |revs|, Spans(span, window, hasQuery)), BucketSegments(chain, ps, window), i, keys) ==
            ChainBucket(ledger, chain[i])
  {
    var segments := BucketSegments(chain, ps, window);
    SegmentsSorted(revs, chain, span, ps, window);
    ChainOrder(chain, 0, i);
    ChainOrder(chain, i, |chain| - 1);
    var r := ReignOf(revs, chain[i], segments[i]);
    assert InChain(segments[i], span);
    SpanIsForward(revs, chain, span, ps, window);
    hide *;
    PlanRefinesNaive(ledger, revs, r, span, window, hasQuery, segments, i, keys);
  }

  lemma WindowBucketIsFilled(ledger: seq<Posting>, revs: seq<Revision>, chain: seq<ResolvedPeriod>,
                             span: Option<(Date, Date)>,
                             ps: seq<ResolvedPeriod>, window: (Date, Date), hasQuery: bool,
                             keys: Option<set<PostingKey>>, i: nat)
    requires keys.Some? ==> hasQuery
    requires ValidRevisions(revs) && Fits(revs, chain, span, ps, window) && i < |ps|
    ensures Gathered(ledger, Loads(revs, |revs|, Spans(span, window, hasQuery)), BucketSegments(chain, ps, window), |chain| + i, keys) ==
            WindowBucket(ledger, ps[i], window, keys)
  {
    hide *;
    var segments := BucketSegments(chain, ps, window);
    SegmentsSorted(revs, chain, span, ps, window);
    FitsParts(revs, chain, span, ps, window, i);
    var r := ReignOf(revs, ps[i], segments[|chain| + i]);
    WindowSegment(revs, chain, span, ps, window, i);
    SpanIsForward(revs, chain, span, ps, window);
    WindowBucketIs(ledger, ps[i], window, keys);
    PlanRefinesNaive(ledger, revs, r, span, window, hasQuery, segments, |chain| + i, keys);
  }

  lemma FitsParts(revs: seq<Revision>, chain: seq<ResolvedPeriod>, span: Option<(Date, Date)>, ps: seq<ResolvedPeriod>,
                  window: (Date, Date), i: nat)
    requires Fits(revs, chain, span, ps, window) && i < |ps|
    ensures var s := BucketSegments(chain, ps, window)[|chain| + i];
            && Resolved(revs, ps[i]) && ps[i].start <= s.start && s.end <= ps[i].end
            && s == Segment(Max(ps[i].start, window.0), Min(ps[i].end, window.1))
  {
    hide Resolved, Chained;
  }

  lemma WindowBucketIs(ledger: seq<Posting>, p: ResolvedPeriod, window: (Date, Date), keys: Option<set<PostingKey>>)
    ensures WindowBucket(ledger, p, window, keys) ==
            Naive(ledger, Segment(Max(p.start, window.0), Min(p.end, window.1)), p.revision.tagFilter, keys)
  {
  }

  /** A window segment lies in the window and after the chain. */
  lemma WindowSegment(revs: seq<Revision>, chain: seq<ResolvedPeriod>, span: Option<(Date, Date)>,
                      ps: seq<ResolvedPeriod>,
                      window: (Date, Date), i: nat)
    requires Fits(revs, chain, span, ps, window) && i < |ps|
    ensures InWindow(BucketSegments(chain, ps, window)[|chain| + i], window)
    ensures !InChain(BucketSegments(chain, ps, window)[|chain| + i], span)
  {
    SegmentIsLong(revs, chain, span, ps, window, |chain| + i);
    hide BucketSegments, Resolved, Chained, Overlaps;
  }

  lemma SpanIsForward(revs: seq<Revision>, chain: seq<ResolvedPeriod>, span: Option<(Date, Date)>,
                      ps: seq<ResolvedPeriod>, window: (Date, Date))
    requires Fits(revs, chain, span, ps, window)
    ensures window.0 <= window.1 && (span.Some? ==> span.value.0 <= span.value.1 <= window.0)
  {
    if chain != [] {
      ChainOrder(chain, 0, |chain| - 1);
    }
  }

  /**
   * Plans the loads, runs them and buckets what they bring: every period gets exactly what it is due.
   * A query may be there and still admit everything: it splits the loads, and `keys` is none.
   */
  method LoadBuckets(ledger: seq<Posting>, revs: seq<Revision>, chain: seq<ResolvedPeriod>, span: Option<(Date, Date)>,
                     ps: seq<ResolvedPeriod>, window: (Date, Date), hasQuery: bool, keys: Option<set<PostingKey>>)
    returns (chainBuckets: seq<seq<Posting>>, windowBuckets: seq<seq<Posting>>)
    requires keys.Some? ==> hasQuery
    requires ValidRevisions(revs) && Fits(revs, chain, span, ps, window)
    ensures chainBuckets == ChainParts(ledger, chain)
    ensures windowBuckets == WindowParts(ledger, ps, window, keys)
  {
    var segments := BucketSegments(chain, ps, window);
    var loads := PlanLoads(revs, span, window, hasQuery);
    var buckets := FillBuckets(ledger, loads, segments, keys);
    hide *;
    forall i | 0 <= i < |chain| ensures buckets[i] == ChainBucket(ledger, chain[i]) {
      ChainBucketIsFilled(ledger, revs, chain, span, ps, window, hasQuery, keys, i);
    }
    forall i | 0 <= i < |ps| ensures buckets[|chain| + i] == WindowBucket(ledger, ps[i], window, keys) {
      WindowBucketIsFilled(ledger, revs, chain, span, ps, window, hasQuery, keys, i);
    }
    chainBuckets, windowBuckets := buckets[..|chain|], buckets[|chain|..];
  }
}
