/** The at-most-two-loads-per-reign plan, and the buckets its postings fall into. */
module LoadPlan {
  import opened Prelude
  import opened Seqs
  import opened Timeline
  import opened Postings

  /** One load: a date range under one revision's tag filter. */
  datatype Load = Load(start: Date, end: Date, tagFilter: Option<TagId>, withQuery: bool)

  /** A date range before clipping to a reign, and whether the query applies to it. */
  datatype Span = Span(from: Date, until: Date, withQuery: bool)

  /** Chain and window share one span unless a query narrows the window. */
  function Spans(chain: Option<(Date, Date)>, window: (Date, Date), hasQuery: bool): (spans: seq<Span>)
    ensures |spans| <= 2
    ensures !hasQuery || chain.None? ==> |spans| == 1
  {
    match chain
    case Some((start, end)) =>
      if !hasQuery then [Span(start, window.1, false)]
      else [Span(start, end, false), Span(window.0, window.1, true)]
    case None => [Span(window.0, window.1, hasQuery)]
  }

  function Clip(revs: seq<Revision>, i: nat, span: Span): Load
    requires i < |revs|
  {
    var end := ReignEnd(revs, i);
    Load(Max(span.from, revs[i].effectiveFrom), if end.Some? then Min(span.until, end.value) else span.until,
         revs[i].tagFilter, span.withQuery)
  }

  /** The loads of reign `i`: its spans clipped to the reign, empty ones dropped. */
  function ReignLoads(revs: seq<Revision>, i: nat, spans: seq<Span>): (loads: seq<Load>)
    requires i < |revs|
    ensures |loads| <= |spans|
  {
    if spans == [] then []
    else
      var load := Clip(revs, i, spans[|spans| - 1]);
      ReignLoads(revs, i, spans[..|spans| - 1]) + if load.start < load.end then [load] else []
  }

  /** The loads of the first `n` reigns, in reign order. */
  function Loads(revs: seq<Revision>, n: nat, spans: seq<Span>): seq<Load>
    requires n <= |revs|
  {
    if n == 0 then [] else Loads(revs, n - 1, spans) + ReignLoads(revs, n - 1, spans)
  }

  method PlanLoads(revs: seq<Revision>, chain: Option<(Date, Date)>, window: (Date, Date), hasQuery: bool)
    returns (loads: seq<Load>)
    ensures loads == Loads(revs, |revs|, Spans(chain, window, hasQuery))
  {
    var spans := Spans(chain, window, hasQuery);
    loads := [];
    for i := 0 to |revs|
      invariant loads == Loads(revs, i, spans)
    {
      var more := PlanReign(revs, i, spans);
      loads := loads + more;
    }
  }

  /** The loads of one reign, in range order. */
  method PlanReign(revs: seq<Revision>, i: nat, spans: seq<Span>) returns (loads: seq<Load>)
    requires i < |revs|
    ensures loads == ReignLoads(revs, i, spans)
  {
    loads := [];
    var reignStart := revs[i].effectiveFrom;
    var reignEnd := ReignEnd(revs, i);
    for k := 0 to |spans|
      invariant loads == ReignLoads(revs, i, spans[..k])
    {
      var start := Max(spans[k].from, reignStart);
      var end := if reignEnd.Some? then Min(spans[k].until, reignEnd.value) else spans[k].until;
      assert spans[..k + 1][..k] == spans[..k];
      if start < end {
        loads := loads + [Load(start, end, revs[i].tagFilter, spans[k].withQuery)];
      }
    }
    assert spans[..|spans|] == spans;
  }

  // ----- Segments -----

  /** A half-open date range whose postings fold together. */
  datatype Segment = Segment(start: Date, end: Date)

  predicate Holds(s: Segment, date: Date) {
    s.start <= date < s.end
  }

  predicate SortedSegments(segments: seq<Segment>) {
    && (forall i :: 0 <= i < |segments| ==> segments[i].start < segments[i].end)
    && (forall i, j :: 0 <= i < j < |segments| ==> segments[i].end <= segments[j].start)
  }

  /** How many leading segments end on or before `date`, by bisection of `[lo, hi)`. */
  function PartitionPoint(segments: seq<Segment>, date: Date, lo: nat, hi: nat): (n: nat)
    requires lo <= hi <= |segments|
    ensures lo <= n <= hi
    decreases hi - lo
  {
    if lo == hi then lo
    else
      var mid := (lo + hi) / 2;
      if segments[mid].end <= date then PartitionPoint(segments, date, mid + 1, hi) else PartitionPoint(segments, date, lo, mid)
  }

  /** The index of the segment holding `date`, if any; dates in a gap have none. */
  function SegmentIndex(segments: seq<Segment>, date: Date): (i: Option<nat>)
    ensures i.Some? ==> i.value < |segments|
  {
    var n := PartitionPoint(segments, date, 0, |segments|);
    if n < |segments| && segments[n].start <= date then Some(n) else None
  }

  lemma EndsAscend(segments: seq<Segment>, mid: nat)
    requires SortedSegments(segments) && mid < |segments|
    ensures forall i :: 0 <= i < mid ==> segments[i].end <= segments[mid].end
    ensures forall i :: mid < i < |segments| ==> segments[mid].end <= segments[i].end
  {
  }

  /** Everything before `n` ends by `date`, nothing from `n` on does. */
  predicate SplitsAt(segments: seq<Segment>, date: Date, n: nat) {
    && (forall i :: 0 <= i < n && i < |segments| ==> segments[i].end <= date)
    && (forall i :: n <= i < |segments| ==> date < segments[i].end)
  }

  lemma {:induction false} PartitionPointSplits(segments: seq<Segment>, date: Date, lo: nat, hi: nat)
    requires SortedSegments(segments) && lo <= hi <= |segments|
    requires forall i :: 0 <= i < lo ==> segments[i].end <= date
    requires forall i :: hi <= i < |segments| ==> date < segments[i].end
    ensures SplitsAt(segments, date, PartitionPoint(segments, date, lo, hi))
    decreases hi - lo
  {
    if lo < hi {
      var mid := (lo + hi) / 2;
      assert lo <= mid < hi;
      EndsAscend(segments, mid);
      hide SortedSegments, SplitsAt;
      if segments[mid].end <= date {
        PartitionPointSplits(segments, date, mid + 1, hi);
      } else {
        PartitionPointSplits(segments, date, lo, mid);
      }
    }
  }

  /** The binary search finds exactly the segment holding the date. */
  lemma SegmentIndexFinds(segments: seq<Segment>, date: Date, i: nat)
    requires SortedSegments(segments) && i < |segments|
    ensures SegmentIndex(segments, date) == Some(i) <==> Holds(segments[i], date)
  {
    PartitionPointSplits(segments, date, 0, |segments|);
  }

  /** Chain periods whole, then window periods clipped to the window. */
  function BucketSegments(chain: seq<ResolvedPeriod>, periods: seq<ResolvedPeriod>,
                          window: (Date, Date)): (segments: seq<Segment>)
    ensures |segments| == |chain| + |periods|
    ensures forall k :: 0 <= k < |chain| ==> segments[k] == Segment(chain[k].start, chain[k].end)
    ensures forall k :: 0 <= k < |periods| ==>
              segments[|chain| + k] == Segment(Max(periods[k].start, window.0), Min(periods[k].end, window.1))
  {
    seq(|chain|, k requires 0 <= k < |chain| => Segment(chain[k].start, chain[k].end))
    + seq(|periods|, k requires 0 <= k < |periods| => Segment(Max(periods[k].start, window.0), Min(periods[k].end, window.1)))
  }

  // ----- Filling the buckets -----

  function LoadPostings(ledger: seq<Posting>, load: Load, keys: Option<set<PostingKey>>): seq<Posting> {
    FetchPostings(ledger, load.start, load.end, load.tagFilter, if load.withQuery then keys else None)
  }

  function Lands(segments: seq<Segment>, i: nat): Posting -> bool {
    (p: Posting) => SegmentIndex(segments, p.date) == Some(i)
  }

  /** What the loads bring into bucket `i`. */
  function Gathered(ledger: seq<Posting>, loads: seq<Load>, segments: seq<Segment>, i: nat,
                    keys: Option<set<PostingKey>>): seq<Posting> {
    if loads == [] then []
    else Gathered(ledger, loads[..|loads| - 1], segments, i, keys)
         + Filter(LoadPostings(ledger, loads[|loads| - 1], keys), Lands(segments, i))
  }

  /** Pushes each posting into the bucket of the segment holding its date; the rest are dropped. */
  method Distribute(postings: seq<Posting>, segments: seq<Segment>, into: seq<seq<Posting>>)
    returns (buckets: seq<seq<Posting>>)
    requires |into| == |segments|
    ensures |buckets| == |segments|
    ensures forall i :: 0 <= i < |segments| ==> buckets[i] == into[i] + Filter(postings, Lands(segments, i))
  {
    hide SegmentIndex, Filter;
    buckets := into;
    forall i | 0 <= i < |segments| {
      FilterNone(Lands(segments, i));
    }
    for k := 0 to |postings|
      invariant |buckets| == |segments|
      invariant forall i :: 0 <= i < |segments| ==> buckets[i] == into[i] + Filter(postings[..k], Lands(segments, i))
    {
      forall i | 0 <= i < |segments| {
        FilterPrefix(postings, k, Lands(segments, i));
      }
      var index := SegmentIndex(segments, postings[k].date);
      if index.Some? {
        buckets := buckets[index.value := buckets[index.value] + [postings[k]]];
      }
    }
    assert postings[..|postings|] == postings;
  }

  lemma FilterNone(test: Posting -> bool)
    ensures Filter([], test) == []
  {
  }

  /** Runs the loads and distributes what each brings. */
  method FillBuckets(ledger: seq<Posting>, loads: seq<Load>, segments: seq<Segment>, keys: Option<set<PostingKey>>)
    returns (buckets: seq<seq<Posting>>)
    ensures |buckets| == |segments|
    ensures forall i :: 0 <= i < |segments| ==> buckets[i] == Gathered(ledger, loads, segments, i, keys)
  {
    buckets := seq(|segments|, _ => []);
    for n := 0 to |loads|
      invariant |buckets| == |segments|
      invariant forall i :: 0 <= i < |segments| ==> buckets[i] == Gathered(ledger, loads[..n], segments, i, keys)
    {
      var postings := LoadPostings(ledger, loads[n], keys);
      buckets := Distribute(postings, segments, buckets);
      assert loads[..n + 1][..n] == loads[..n];
    }
    assert loads[..|loads|] == loads;
  }

  lemma FilterPrefix(s: seq<Posting>, k: nat, test: Posting -> bool)
    requires k < |s|
    ensures Filter(s[..k + 1], test) == Filter(s[..k], test) + if test(s[k]) then [s[k]] else []
  {
    assert s[..k + 1] == s[..k] + [s[k]];
    FilterAppend(s[..k], s[k], test);
  }

  // ----- The plan refines one load per period -----

  /** The segment lies within reign `r`. */
  predicate WithinReign(revs: seq<Revision>, s: Segment, r: nat) {
    && r < |revs|
    && revs[r].effectiveFrom <= s.start
    && (ReignEnd(revs, r).Some? ==> s.end <= ReignEnd(revs, r).value)
  }

  /** What bucket `s` should hold: its own dates, its own revision's tag filter, the query where it applies. */
  function Naive(ledger: seq<Posting>, s: Segment, tag: Option<TagId>, keys: Option<set<PostingKey>>): seq<Posting> {
    FetchPostings(ledger, s.start, s.end, tag, keys)
  }

  lemma GatheredAppend(ledger: seq<Posting>, loads: seq<Load>, load: Load, segments: seq<Segment>, i: nat,
                       keys: Option<set<PostingKey>>)
    ensures Gathered(ledger, loads + [load], segments, i, keys) ==
            Gathered(ledger, loads, segments, i, keys) + Filter(LoadPostings(ledger, load, keys), Lands(segments, i))
  {
    assert (loads + [load])[..|loads|] == loads;
  }

  lemma {:induction false} GatheredConcat(ledger: seq<Posting>, a: seq<Load>, b: seq<Load>, segments: seq<Segment>,
                                          i: nat,
                                          keys: Option<set<PostingKey>>)
    ensures Gathered(ledger, a + b, segments, i, keys) ==
            Gathered(ledger, a, segments, i, keys) + Gathered(ledger, b, segments, i, keys)
  {
    if b == [] {
      assert a + b == a;
      assert Gathered(ledger, b, segments, i, keys) == [];
    } else {
      hide *;
      var last := |b| - 1;
      var init := b[..last];
      assert b == init + [b[last]] && a + b == (a + init) + [b[last]];
      GatheredConcat(ledger, a, init, segments, i, keys);
      GatheredAppend(ledger, a + init, b[last], segments, i, keys);
      GatheredAppend(ledger, init, b[last], segments, i, keys);
      ConcatAssociates(Gathered(ledger, a, segments, i, keys), Gathered(ledger, init, segments, i, keys),
                       Filter(LoadPostings(ledger, b[last], keys), Lands(segments, i)));
    }
  }

  lemma ConcatAssociates<T>(a: seq<T>, b: seq<T>, c: seq<T>)
    ensures (a + b) + c == a + (b + c)
  {
  }

  /** A load disjoint from the segment brings it nothing. */
  lemma DisjointLoad(ledger: seq<Posting>, load: Load, segments: seq<Segment>, i: nat, keys: Option<set<PostingKey>>)
    requires SortedSegments(segments) && i < |segments|
    requires load.end <= segments[i].start || segments[i].end <= load.start
    ensures Filter(LoadPostings(ledger, load, keys), Lands(segments, i)) == []
  {
    var test := Admitted(load.start, load.end, load.tagFilter, if load.withQuery then keys else None);
    var postings := LoadPostings(ledger, load, keys);
    FilterMembers(ledger, test);
    forall k | 0 <= k < |postings| ensures !Lands(segments, i)(postings[k]) {
      assert postings[k] in postings;
      SegmentIndexFinds(segments, postings[k].date, i);
    }
    FilterNothing(postings, Lands(segments, i));
  }

  /** A load covering the segment brings it exactly its own postings. */
  lemma CoveringLoad(ledger: seq<Posting>, load: Load, segments: seq<Segment>, i: nat, keys: Option<set<PostingKey>>)
    requires SortedSegments(segments) && i < |segments|
    requires load.start <= segments[i].start && segments[i].end <= load.end
    ensures Filter(LoadPostings(ledger, load, keys), Lands(segments, i)) ==
            Naive(ledger, segments[i], load.tagFilter, if load.withQuery then keys else None)
  {
    var used := if load.withQuery then keys else None;
    forall k | 0 <= k < |ledger|
      ensures Admitted(segments[i].start, segments[i].end, load.tagFilter, used)(ledger[k]) ==
              (Admitted(load.start, load.end, load.tagFilter, used)(ledger[k]) && Lands(segments, i)(ledger[k]))
    {
      SegmentIndexFinds(segments, ledger[k].date, i);
    }
    FilterTwice(ledger, Admitted(load.start, load.end, load.tagFilter, used), Lands(segments, i),
                Admitted(segments[i].start, segments[i].end, load.tagFilter, used));
  }

  /** What one span, clipped to the segment's own reign, brings to the segment. */
  lemma SpanBrings(ledger: seq<Posting>, revs: seq<Revision>, r: nat, span: Span, segments: seq<Segment>, i: nat,
                   keys: Option<set<PostingKey>>)
    requires SortedSegments(segments) && i < |segments| && WithinReign(revs, segments[i], r)
    ensures span.from <= segments[i].start && segments[i].end <= span.until ==>
              Gathered(ledger, ReignLoads(revs, r, [span]), segments, i, keys) ==
              Naive(ledger, segments[i], revs[r].tagFilter, if span.withQuery then keys else None)
    ensures span.until <= segments[i].start || segments[i].end <= span.from ==>
              Gathered(ledger, ReignLoads(revs, r, [span]), segments, i, keys) == []
  {
    var load := Clip(revs, r, span);
    var loads := ReignLoads(revs, r, [span]);
    assert [span][..0] == [];
    assert ReignLoads(revs, r, []) == [];
    assert loads == if load.start < load.end then [load] else [];
    if load.start < load.end {
      assert [load][..0] == [];
      assert Gathered(ledger, [], segments, i, keys) == [];
      assert Gathered(ledger, loads, segments, i, keys) == Filter(LoadPostings(ledger, load, keys), Lands(segments, i));
    }
    if span.from <= segments[i].start && segments[i].end <= span.until {
      CoveringLoad(ledger, load, segments, i, keys);
    } else if span.until <= segments[i].start || segments[i].end <= span.from {
      DisjointLoad(ledger, load, segments, i, keys);
    }
  }

  /** A load of another reign is disjoint from the segment. */
  lemma OtherClip(revs: seq<Revision>, r: nat, j: nat, span: Span, segment: Segment)
    requires ValidRevisions(revs) && WithinReign(revs, segment, r) && j < |revs| && j != r
    ensures Clip(revs, j, span).end <= segment.start || segment.end <= Clip(revs, j, span).start
  {
    ReignsAreApart(revs, r, j);
  }

  /** Loads of other reigns bring nothing to a segment. */
  lemma {:induction false} OtherReign(ledger: seq<Posting>, revs: seq<Revision>, r: nat, j: nat, spans: seq<Span>,
                                      segments: seq<Segment>, i: nat, keys: Option<set<PostingKey>>)
    requires ValidRevisions(revs) && SortedSegments(segments) && i < |segments|
    requires WithinReign(revs, segments[i], r) && j < |revs| && j != r
    ensures Gathered(ledger, ReignLoads(revs, j, spans), segments, i, keys) == []
  {
    if spans == [] {
    } else {
      hide ValidRevisions, SortedSegments, WithinReign, Clip, LoadPostings, Filter;
      var init, load := spans[..|spans| - 1], Clip(revs, j, spans[|spans| - 1]);
      var fewer := ReignLoads(revs, j, init);
      OtherReign(ledger, revs, r, j, init, segments, i, keys);
      if load.start < load.end {
        OtherClip(revs, r, j, spans[|spans| - 1], segments[i]);
        DisjointLoad(ledger, load, segments, i, keys);
        GatheredAppend(ledger, fewer, load, segments, i, keys);
        assert ReignLoads(revs, j, spans) == fewer + [load];
      } else {
        assert ReignLoads(revs, j, spans) == fewer + [] == fewer;
      }
    }
  }

  lemma ReignsAreApart(revs: seq<Revision>, r: nat, j: nat)
    requires ValidRevisions(revs) && r < |revs| && j < |revs| && j != r
    ensures j < r ==> ReignEnd(revs, j).Some? && ReignEnd(revs, j).value <= revs[r].effectiveFrom
    ensures r < j ==> ReignEnd(revs, r).Some? && ReignEnd(revs, r).value <= revs[j].effectiveFrom
  {
    if j + 1 < r {
      assert revs[j + 1].effectiveFrom < revs[r].effectiveFrom;
    } else if r + 1 < j {
      assert revs[r + 1].effectiveFrom < revs[j].effectiveFrom;
    }
  }

  /** Only the segment's own reign brings it anything. */
  lemma {:induction false} OwnReignOnly(ledger: seq<Posting>, revs: seq<Revision>, r: nat, n: nat, spans: seq<Span>,
                                        segments: seq<Segment>, i: nat, keys: Option<set<PostingKey>>)
    requires ValidRevisions(revs) && SortedSegments(segments) && i < |segments|
    requires WithinReign(revs, segments[i], r) && n <= |revs|
    ensures Gathered(ledger, Loads(revs, n, spans), segments, i, keys) ==
            if r < n then Gathered(ledger, ReignLoads(revs, r, spans), segments, i, keys) else []
  {
    hide *;
    if n == 0 {
      NoLoads(ledger, revs, spans, segments, i, keys);
    } else {
      OwnReignOnly(ledger, revs, r, n - 1, spans, segments, i, keys);
      LastReign(ledger, revs, n, spans, segments, i, keys);
      var before := Gathered(ledger, Loads(revs, n - 1, spans), segments, i, keys);
      var own := Gathered(ledger, ReignLoads(revs, n - 1, spans), segments, i, keys);
      if r == n - 1 {
        assert before + own == own;
      } else {
        OtherReign(ledger, revs, r, n - 1, spans, segments, i, keys);
        assert before + own == before;
      }
    }
  }

  lemma NoLoads(ledger: seq<Posting>, revs: seq<Revision>, spans: seq<Span>, segments: seq<Segment>, i: nat,
                keys: Option<set<PostingKey>>)
    ensures Gathered(ledger, Loads(revs, 0, spans), segments, i, keys) == []
  {
  }

  lemma LastReign(ledger: seq<Posting>, revs: seq<Revision>, n: nat, spans: seq<Span>, segments: seq<Segment>, i: nat,
                  keys: Option<set<PostingKey>>)
    requires 0 < n <= |revs|
    ensures Gathered(ledger, Loads(revs, n, spans), segments, i, keys) ==
            Gathered(ledger, Loads(revs, n - 1, spans), segments, i, keys)
            + Gathered(ledger, ReignLoads(revs, n - 1, spans), segments, i, keys)
  {
    hide Gathered, ReignLoads;
    GatheredConcat(ledger, Loads(revs, n - 1, spans), ReignLoads(revs, n - 1, spans), segments, i, keys);
  }

  lemma TwoSpans(revs: seq<Revision>, r: nat, a: Span, b: Span)
    requires r < |revs|
    ensures ReignLoads(revs, r, [a, b]) == ReignLoads(revs, r, [a]) + ReignLoads(revs, r, [b])
  {
    assert [a, b][..1] == [a] && [b][..0] == [];
    assert ReignLoads(revs, r, []) == [];
  }

  /** A segment of the carry chain, or a segment of the window. */
  predicate InChain(s: Segment, chain: Option<(Date, Date)>) {
    chain.Some? && chain.value.0 <= s.start && s.end <= chain.value.1
  }

  predicate InWindow(s: Segment, window: (Date, Date)) {
    window.0 <= s.start && s.end <= window.1
  }

  /**
   * The plan refines one load per period: however the loads are merged and clipped, a chain segment
   * receives exactly its postings under its own revision's filter, without the query, and a window
   * segment exactly its postings with the query.
   */
  lemma PlanRefinesNaive(ledger: seq<Posting>, revs: seq<Revision>, r: nat, chain: Option<(Date, Date)>,
                         window: (Date, Date),
                         hasQuery: bool, segments: seq<Segment>, i: nat, keys: Option<set<PostingKey>>)
    requires ValidRevisions(revs) && SortedSegments(segments) && i < |segments|
    requires WithinReign(revs, segments[i], r)
    requires window.0 <= window.1 && (chain.Some? ==> chain.value.0 <= chain.value.1 <= window.0)
    requires !hasQuery ==> keys.None?
    requires InChain(segments[i], chain) || InWindow(segments[i], window)
    ensures Gathered(ledger, Loads(revs, |revs|, Spans(chain, window, hasQuery)), segments, i, keys) ==
            Naive(ledger, segments[i], revs[r].tagFilter, if InChain(segments[i], chain) then None else keys)
  {
    var spans := Spans(chain, window, hasQuery);
    OwnReignOnly(ledger, revs, r, |revs|, spans, segments, i, keys);
    hide Gathered, Naive, Loads, ReignLoads, SortedSegments, WithinReign;
    forall k | 0 <= k < |spans| {
      SpanBrings(ledger, revs, r, spans[k], segments, i, keys);
    }
    if |spans| == 1 {
      SpanBrings(ledger, revs, r, spans[0], segments, i, keys);
      assert spans == [spans[0]];
    } else {
      SpanBrings(ledger, revs, r, spans[0], segments, i, keys);
      SpanBrings(ledger, revs, r, spans[1], segments, i, keys);
      assert spans == [spans[0], spans[1]];
      TwoSpans(revs, r, spans[0], spans[1]);
      GatheredConcat(ledger, ReignLoads(revs, r, [spans[0]]), ReignLoads(revs, r, [spans[1]]), segments, i, keys);
    }
  }

  /** At most two loads per reign, and one when nothing splits the span. */
  lemma AtMostTwoLoadsPerReign(revs: seq<Revision>, i: nat, chain: Option<(Date, Date)>, window: (Date, Date),
                               hasQuery: bool)
    requires i < |revs|
    ensures |ReignLoads(revs, i, Spans(chain, window, hasQuery))| <= if hasQuery && chain.Some? then 2 else 1
  {
  }
}
