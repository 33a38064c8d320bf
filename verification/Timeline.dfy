/** Dated revisions of a budget resolved into periods, and how far back a carry reaches. */
module Timeline {
  import opened Prelude
  import opened Seqs
  import opened Balances
  import opened Calendar

  type RevisionId = nat
  type BudgetId = nat

  datatype Rollover = CarryForward | ResetToZero | CapAtTarget

  /** One effective-dated configuration of a budget. */
  datatype Revision = Revision(id: RevisionId, budget: BudgetId, effectiveFrom: Date, target: Option<Amount>,
                               period: Period, rollover: Rollover, tagFilter: Option<TagId>)

  /** `[start, end)` under the revision governing it; a stub is cut short by the next revision. */
  datatype ResolvedPeriod = ResolvedPeriod(start: Date, end: Date, revision: Revision, stub: bool)

  /** One budget's revisions: strictly date-ordered, each with a period that moves forward. */
  ghost predicate ValidRevisions(revs: seq<Revision>) {
    && (forall i, j :: 0 <= i < j < |revs| ==> revs[i].effectiveFrom < revs[j].effectiveFrom)
    && (forall i :: 0 <= i < |revs| ==> revs[i].period.Valid())
  }

  function ReignEnd(revs: seq<Revision>, i: nat): Option<Date> {
    if i + 1 < |revs| then Some(revs[i + 1].effectiveFrom) else None
  }

  /** The index of the revision governing `date`: the last one effective on or before it. */
  function Governing(revs: seq<Revision>, date: Date): (i: Option<nat>)
    ensures i.Some? ==> i.value < |revs| && revs[i.value].effectiveFrom <= date
                        && forall j :: i.value < j < |revs| ==> revs[j].effectiveFrom > date
    ensures i.None? ==> forall j :: 0 <= j < |revs| ==> revs[j].effectiveFrom > date
  {
    if revs == [] then None
    else if revs[|revs| - 1].effectiveFrom <= date then Some(|revs| - 1)
    else Governing(revs[..|revs| - 1], date)
  }

  /** The period of reign `i` starting at `cursor`, cut at the end of the reign. */
  function PeriodFrom(revs: seq<Revision>, i: nat, cursor: Date): ResolvedPeriod
    requires i < |revs|
  {
    var naturalEnd := revs[i].period.Advance(cursor);
    match ReignEnd(revs, i)
    case Some(end) =>
      if end < naturalEnd then ResolvedPeriod(cursor, end, revs[i], true) else ResolvedPeriod(cursor, naturalEnd, revs[i], false)
    case None => ResolvedPeriod(cursor, naturalEnd, revs[i], false)
  }

  /** `cursor` lies in reign `i`. */
  predicate InReign(revs: seq<Revision>, i: nat, cursor: Date) {
    && i < |revs|
    && revs[i].effectiveFrom <= cursor
    && (ReignEnd(revs, i).Some? ==> cursor < ReignEnd(revs, i).value)
  }

  function Overlaps(from: Date, until: Date): ResolvedPeriod -> bool {
    (p: ResolvedPeriod) => p.start < until && p.end > from
  }

  /** The periods of reign `i` from `cursor` on that overlap `[from, until)`. */
  function Tile(revs: seq<Revision>, i: nat, cursor: Date, from: Date, until: Date): seq<ResolvedPeriod>
    requires ValidRevisions(revs) && InReign(revs, i, cursor)
    decreases until - cursor
  {
    var p := PeriodFrom(revs, i, cursor);
    var head := if Overlaps(from, until)(p) then [p] else [];
    if p.end >= until || (ReignEnd(revs, i).Some? && p.end >= ReignEnd(revs, i).value) then head
    else head + Tile(revs, i, p.end, from, until)
  }

  /** The periods of reigns `i` and later that overlap `[from, until)`. */
  function Reigns(revs: seq<Revision>, i: nat, from: Date, until: Date): seq<ResolvedPeriod>
    requires ValidRevisions(revs) && i <= |revs|
    decreases |revs| - i
  {
    if i == |revs| || revs[i].effectiveFrom >= until then []
    else
      var ends := ReignEnd(revs, i);
      (if ends.Some? && ends.value <= from then [] else Tile(revs, i, revs[i].effectiveFrom, from, until))
      + Reigns(revs, i + 1, from, until)
  }

  /** The revision-defined periods overlapping `[from, until)`, with their true starts. */
  function PeriodsOverlapping(revs: seq<Revision>, from: Date, until: Date): seq<ResolvedPeriod>
    requires ValidRevisions(revs)
  {
    if from >= until then [] else Reigns(revs, 0, from, until)
  }

  // ----- Shape of a period list -----

  /** Non-empty periods, each starting where the one before it ends. */
  predicate Chained(ps: seq<ResolvedPeriod>) {
    && (forall k :: 0 <= k < |ps| ==> ps[k].start < ps[k].end)
    && (forall k :: 0 < k < |ps| ==> ps[k - 1].end == ps[k].start)
  }

  /** `p` lies in the reign of its own revision, the `i`-th. */
  ghost predicate LiesIn(revs: seq<Revision>, p: ResolvedPeriod, i: nat) {
    && i < |revs| && p.revision == revs[i]
    && revs[i].effectiveFrom <= p.start
    && (ReignEnd(revs, i).Some? ==> p.end <= ReignEnd(revs, i).value)
    && EndsByItsStep(revs, p, i)
  }

  /**
   * `p` ends one calendar step after its start, or where reign `i` ends if that comes first, and is a stub just then.
   */
  ghost predicate EndsByItsStep(revs: seq<Revision>, p: ResolvedPeriod, i: nat)
    requires i < |revs|
  {
    var step := revs[i].period.Advance(p.start);
    && p.end == (if ReignEnd(revs, i).Some? then Min(step, ReignEnd(revs, i).value) else step)
    && (p.stub <==> p.end < step)
  }

  ghost predicate Resolved(revs: seq<Revision>, p: ResolvedPeriod) {
    exists i :: LiesIn(revs, p, i)
  }

  predicate Contains(p: ResolvedPeriod, date: Date) {
    p.start <= date < p.end
  }

  predicate Covers(ps: seq<ResolvedPeriod>, date: Date) {
    exists k :: 0 <= k < |ps| && Contains(ps[k], date)
  }

  ghost predicate TilesReign(ps: seq<ResolvedPeriod>, revs: seq<Revision>, i: nat, cursor: Date, from: Date,
                             until: Date) {
    && Chained(ps) && ps != []
    && (forall k :: 0 <= k < |ps| ==> LiesIn(revs, ps[k], i) && Overlaps(from, until)(ps[k]) && cursor <= ps[k].start)
    && (from <= cursor ==> ps[0].start == cursor)
    && ps[0].start <= Max(cursor, from)
    && ps[|ps| - 1].end >= (if ReignEnd(revs, i).Some? then Min(until, ReignEnd(revs, i).value) else until)
  }

  lemma PeriodFromShape(revs: seq<Revision>, i: nat, cursor: Date)
    requires ValidRevisions(revs) && InReign(revs, i, cursor)
    ensures var p := PeriodFrom(revs, i, cursor);
            p.start == cursor < p.end && p.revision == revs[i] && LiesIn(revs, p, i)
  {
    assert revs[i].period.Valid();
  }

  lemma ConcatChained(a: seq<ResolvedPeriod>, b: seq<ResolvedPeriod>)
    requires Chained(a) && Chained(b)
    requires a != [] && b != [] ==> a[|a| - 1].end == b[0].start
    ensures Chained(a + b)
  {
  }

  lemma OneChained(p: ResolvedPeriod)
    requires p.start < p.end
    ensures Chained([p])
  {
  }

  lemma {:induction false} TileShape(revs: seq<Revision>, i: nat, cursor: Date, from: Date, until: Date)
    requires ValidRevisions(revs) && InReign(revs, i, cursor)
    requires from < until && cursor < until && (ReignEnd(revs, i).Some? ==> from < ReignEnd(revs, i).value)
    ensures TilesReign(Tile(revs, i, cursor, from, until), revs, i, cursor, from, until)
    decreases until - cursor
  {
    var p, ends := PeriodFrom(revs, i, cursor), ReignEnd(revs, i);
    PeriodFromShape(revs, i, cursor);
    hide ValidRevisions, PeriodFrom, LiesIn, TilesReign;
    if p.end >= until || (ends.Some? && p.end >= ends.value) {
      assert Tile(revs, i, cursor, from, until) == [p];
      LastTile(p, revs, i, from, until);
    } else {
      TileShape(revs, i, p.end, from, until);
      var rest := Tile(revs, i, p.end, from, until);
      if p.end > from {
        TileThenRest(p, rest, revs, i, from, until);
        assert Tile(revs, i, cursor, from, until) == [p] + rest;
      } else {
        SkippedTile(p, rest, revs, i, from, until);
        assert Tile(revs, i, cursor, from, until) == [] + rest == rest;
      }
    }
  }

  lemma LastTile(p: ResolvedPeriod, revs: seq<Revision>, i: nat, from: Date, until: Date)
    requires p.start < p.end && LiesIn(revs, p, i) && Overlaps(from, until)(p)
    requires p.end >= until || (ReignEnd(revs, i).Some? && p.end >= ReignEnd(revs, i).value)
    ensures TilesReign([p], revs, i, p.start, from, until)
  {
  }

  lemma TileThenRest(p: ResolvedPeriod, rest: seq<ResolvedPeriod>, revs: seq<Revision>, i: nat, from: Date, until: Date)
    requires from < p.end < until && p.start < p.end && LiesIn(revs, p, i)
    requires TilesReign(rest, revs, i, p.end, from, until)
    ensures TilesReign([p] + rest, revs, i, p.start, from, until)
  {
    hide LiesIn;
    OneChained(p);
    ConcatChained([p], rest);
    hide Chained;
    var ps := [p] + rest;
    assert ps[|ps| - 1] == rest[|rest| - 1];
    forall k | 0 <= k < |ps| ensures LiesIn(revs, ps[k], i) && Overlaps(from, until)(ps[k]) && p.start <= ps[k].start {
      if k > 0 {
        assert ps[k] == rest[k - 1];
      }
    }
  }

  lemma SkippedTile(p: ResolvedPeriod, rest: seq<ResolvedPeriod>, revs: seq<Revision>, i: nat, from: Date, until: Date)
    requires p.start < p.end <= from
    requires TilesReign(rest, revs, i, p.end, from, until)
    ensures TilesReign(rest, revs, i, p.start, from, until)
  {
  }

  /** Resolved periods overlapping `[from, until)`, covering it from `lo` on. */
  ghost predicate TilesWindow(ps: seq<ResolvedPeriod>, revs: seq<Revision>, lo: Date, from: Date, until: Date) {
    && Chained(ps)
    && (forall k :: 0 <= k < |ps| ==> Resolved(revs, ps[k]) && Overlaps(from, until)(ps[k]) && lo <= ps[k].start)
    && (lo < until <==> ps != [])
    && (ps != [] ==> ps[|ps| - 1].end >= until && ps[0].start <= Max(lo, from))
    && (ps != [] && from <= lo ==> ps[0].start == lo)
  }

  /** A reign's tiles followed by the window tiling of the next reign tile the window from the reign's start. */
  lemma TilesThenWindow(tiles: seq<ResolvedPeriod>, rest: seq<ResolvedPeriod>, revs: seq<Revision>, i: nat, from: Date,
                        until: Date)
    requires ValidRevisions(revs) && i < |revs| && from < until && revs[i].effectiveFrom < until
    requires TilesReign(tiles, revs, i, revs[i].effectiveFrom, from, until)
    requires if ReignEnd(revs, i).None? then rest == []
             else ReignEnd(revs, i).value > from && TilesWindow(rest, revs, ReignEnd(revs, i).value, from, until)
    ensures TilesWindow(tiles + rest, revs, revs[i].effectiveFrom, from, until)
  {
    forall k | 0 <= k < |tiles| ensures Resolved(revs, tiles[k]) {
      assert LiesIn(revs, tiles[k], i);
    }
    if rest != [] {
      assert LiesIn(revs, tiles[|tiles| - 1], i);
      assert rest[0].start == ReignEnd(revs, i).value;
    }
    ConcatChained(tiles, rest);
    var ps := tiles + rest;
    forall k | 0 <= k < |ps|
      ensures Resolved(revs, ps[k]) && Overlaps(from, until)(ps[k]) && revs[i].effectiveFrom <= ps[k].start
    {
      assert ps[k] == if k < |tiles| then tiles[k] else rest[k - |tiles|];
    }
  }

  lemma {:induction false} ReignsShape(revs: seq<Revision>, i: nat, from: Date, until: Date)
    requires ValidRevisions(revs) && i < |revs| && from < until
    ensures TilesWindow(Reigns(revs, i, from, until), revs, revs[i].effectiveFrom, from, until)
    decreases |revs| - i
  {
    var lo, ends := revs[i].effectiveFrom, ReignEnd(revs, i);
    var rest := Reigns(revs, i + 1, from, until);
    if i + 1 < |revs| {
      ReignsShape(revs, i + 1, from, until);
      assert lo < revs[i + 1].effectiveFrom;
    }
    hide ValidRevisions, TilesWindow, TilesReign;
    if lo >= until {
      NoWindow(revs, lo, from, until);
    } else if ends.Some? && ends.value <= from {
      assert Reigns(revs, i, from, until) == [] + rest == rest;
      EarlierStart(rest, revs, ends.value, lo, from, until);
    } else {
      TileShape(revs, i, lo, from, until);
      TilesThenWindow(Tile(revs, i, lo, from, until), rest, revs, i, from, until);
    }
  }

  lemma NoWindow(revs: seq<Revision>, lo: Date, from: Date, until: Date)
    requires lo >= until
    ensures TilesWindow([], revs, lo, from, until)
  {
  }

  lemma EarlierStart(ps: seq<ResolvedPeriod>, revs: seq<Revision>, later: Date, lo: Date, from: Date, until: Date)
    requires TilesWindow(ps, revs, later, from, until) && lo < later <= from < until
    ensures TilesWindow(ps, revs, lo, from, until)
  {
  }

  /** The periods of a window: chained, each under its own revision, from the first governed day to the window's end. */
  lemma WindowShape(revs: seq<Revision>, from: Date, until: Date)
    requires ValidRevisions(revs)
    ensures revs == [] || from >= until ==> PeriodsOverlapping(revs, from, until) == []
    ensures revs != [] && from < until ==>
            TilesWindow(PeriodsOverlapping(revs, from, until), revs, revs[0].effectiveFrom, from, until)
  {
    if from < until && revs != [] {
      ReignsShape(revs, 0, from, until);
    }
  }

  lemma {:induction false} ChainedOrder(ps: seq<ResolvedPeriod>, j: nat, k: nat)
    requires Chained(ps) && j < k < |ps|
    ensures ps[j].end <= ps[k].start
  {
    if j < k - 1 {
      ChainedOrder(ps, j, k - 1);
    }
  }

  lemma {:induction false} ChainedCovers(ps: seq<ResolvedPeriod>, date: Date)
    requires Chained(ps) && ps != [] && ps[0].start <= date < ps[|ps| - 1].end
    ensures Covers(ps, date)
    decreases |ps|
  {
    var last := |ps| - 1;
    if ps[last].start <= date {
      assert Contains(ps[last], date);
    } else {
      ChainedCovers(ps[..last], date);
      var k :| 0 <= k < last && Contains(ps[..last][k], date);
      assert ps[k] == ps[..last][k];
    }
  }

  /** Every governed day of a window lies in exactly one of its periods, under the revision governing that day. */
  lemma EachGovernedDayOnce(revs: seq<Revision>, from: Date, until: Date, date: Date)
    requires ValidRevisions(revs) && from <= date < until
    ensures Governing(revs, date).Some? <==> Covers(PeriodsOverlapping(revs, from, until), date)
    ensures forall k :: 0 <= k < |PeriodsOverlapping(revs, from, until)| && Contains(PeriodsOverlapping(revs, from, until)[k], date) ==>
              Governing(revs, date).Some?
              && PeriodsOverlapping(revs, from, until)[k].revision == revs[Governing(revs, date).value]
    ensures forall j, k :: 0 <= j < k < |PeriodsOverlapping(revs, from, until)| ==>
              !(Contains(PeriodsOverlapping(revs, from, until)[j], date) &&
                Contains(PeriodsOverlapping(revs, from, until)[k], date))
  {
    var ps := PeriodsOverlapping(revs, from, until);
    WindowShape(revs, from, until);
    forall j, k | 0 <= j < k < |ps| ensures ps[j].end <= ps[k].start {
      ChainedOrder(ps, j, k);
    }
    forall k | 0 <= k < |ps| && Contains(ps[k], date)
      ensures Governing(revs, date).Some? && ps[k].revision == revs[Governing(revs, date).value]
    {
      var i :| LiesIn(revs, ps[k], i);
      ReignGoverns(revs, i, date);
    }
    if Governing(revs, date).Some? {
      FirstGoverns(revs, date);
      ChainedCovers(ps, date);
    }
  }

  lemma ReignGoverns(revs: seq<Revision>, i: nat, date: Date)
    requires ValidRevisions(revs) && InReign(revs, i, date)
    ensures Governing(revs, date) == Some(i)
  {
    forall j | i < j < |revs| ensures revs[j].effectiveFrom > date {
      if i + 1 < j {
        assert revs[i + 1].effectiveFrom < revs[j].effectiveFrom;
      }
    }
  }

  /** Two resolved periods that start together are the same period. */
  lemma SameStartSamePeriod(revs: seq<Revision>, p: ResolvedPeriod, q: ResolvedPeriod)
    requires ValidRevisions(revs) && Resolved(revs, p) && Resolved(revs, q)
    requires p.start == q.start && p.start < p.end && q.start < q.end
    ensures p == q
  {
    var i :| LiesIn(revs, p, i);
    var j :| LiesIn(revs, q, j);
    ReignGoverns(revs, i, p.start);
    ReignGoverns(revs, j, p.start);
  }

  lemma NextTilesStartTogether(ps: seq<ResolvedPeriod>, qs: seq<ResolvedPeriod>, revs: seq<Revision>, lo: Date,
                               until: Date, n: nat)
    requires TilesWindow(ps, revs, lo, lo, until) && TilesWindow(qs, revs, lo, lo, until)
    requires n < |ps| && n < |qs| && ps[..n] == qs[..n]
    ensures ps[n].start == qs[n].start && ps[n].start < ps[n].end && qs[n].start < qs[n].end
    ensures Resolved(revs, ps[n]) && Resolved(revs, qs[n])
  {
    hide Resolved;
    assert n > 0 ==> ps[n - 1] == ps[..n][n - 1] == qs[..n][n - 1] == qs[n - 1];
  }

  lemma {:induction false} SameTiles(ps: seq<ResolvedPeriod>, qs: seq<ResolvedPeriod>, revs: seq<Revision>, lo: Date,
                                     until: Date, n: nat)
    requires ValidRevisions(revs) && TilesWindow(ps, revs, lo, lo, until) && TilesWindow(qs, revs, lo, lo, until)
    requires n <= |ps| && n <= |qs|
    ensures ps[..n] == qs[..n]
  {
    if n == 0 {
    } else {
      SameTiles(ps, qs, revs, lo, until, n - 1);
      NextTilesStartTogether(ps, qs, revs, lo, until, n - 1);
      hide *;
      SameStartSamePeriod(revs, ps[n - 1], qs[n - 1]);
      assert ps[..n] == ps[..n - 1] + [ps[n - 1]] && qs[..n] == qs[..n - 1] + [qs[n - 1]];
    }
  }

  lemma OnlyTheLastReaches(ps: seq<ResolvedPeriod>, revs: seq<Revision>, lo: Date, until: Date)
    requires TilesWindow(ps, revs, lo, lo, until)
    ensures forall k :: 0 <= k < |ps| - 1 ==> ps[k].end < until
  {
    hide Resolved;
    forall k | 0 <= k < |ps| - 1 ensures ps[k].end < until {
      assert Overlaps(lo, until)(ps[k + 1]);
    }
  }

  /** A list that already reaches the window's end cannot be continued. */
  lemma NoLongerTiling(ps: seq<ResolvedPeriod>, qs: seq<ResolvedPeriod>, revs: seq<Revision>, lo: Date, until: Date)
    requires TilesWindow(ps, revs, lo, lo, until) && TilesWindow(qs, revs, lo, lo, until)
    requires |ps| <= |qs| && ps == qs[..|ps|]
    ensures ps == qs
  {
    hide Resolved;
    assert ps != [] ==> ps[|ps| - 1] == qs[|ps| - 1];
    assert qs[..|qs|] == qs;
    OnlyTheLastReaches(qs, revs, lo, until);
  }

  /** That shape leaves no choice: only one list of periods starts at the first revision and has it. */
  lemma OnlyShape(revs: seq<Revision>, until: Date, ps: seq<ResolvedPeriod>)
    requires ValidRevisions(revs) && revs != []
    ensures TilesWindow(ps, revs, revs[0].effectiveFrom, revs[0].effectiveFrom, until) <==>
            ps == PeriodsOverlapping(revs, revs[0].effectiveFrom, until)
  {
    var lo := revs[0].effectiveFrom;
    var qs := PeriodsOverlapping(revs, lo, until);
    WindowShape(revs, lo, until);
    if lo >= until {
      NoWindow(revs, lo, lo, until);
      assert TilesWindow(ps, revs, lo, lo, until) ==> ps == [];
    }
    hide *;
    if TilesWindow(ps, revs, lo, lo, until) {
      if |ps| <= |qs| {
        SameTiles(ps, qs, revs, lo, until, |ps|);
        assert ps[..|ps|] == ps;
        NoLongerTiling(ps, qs, revs, lo, until);
      } else {
        SameTiles(ps, qs, revs, lo, until, |qs|);
        assert qs[..|qs|] == qs;
        NoLongerTiling(qs, ps, revs, lo, until);
      }
    }
  }

  lemma FirstGoverns(revs: seq<Revision>, date: Date)
    requires ValidRevisions(revs) && Governing(revs, date).Some?
    ensures revs[0].effectiveFrom <= date
  {
    var i := Governing(revs, date).value;
    assert i > 0 ==> revs[0].effectiveFrom < revs[i].effectiveFrom;
  }

  // ----- A narrower window sees the same periods -----

  lemma FilterOfNothing(p: ResolvedPeriod -> bool)
    ensures Filter([], p) == []
  {
  }

  lemma FilterOfOne(p: ResolvedPeriod, test: ResolvedPeriod -> bool)
    ensures Filter([p], test) == if test(p) then [p] else []
  {
    FilterAppend([], p, test);
    assert [] + [p] == [p];
  }

  lemma {:induction false} TileNarrows(revs: seq<Revision>, i: nat, cursor: Date, from: Date, until: Date, from0: Date,
                                       until0: Date)
    requires ValidRevisions(revs) && InReign(revs, i, cursor)
    requires from0 <= from < until <= until0 && cursor < until
    requires ReignEnd(revs, i).Some? ==> from0 < ReignEnd(revs, i).value
    ensures Tile(revs, i, cursor, from, until) == Filter(Tile(revs, i, cursor, from0, until0), Overlaps(from, until))
    decreases until0 - cursor
  {
    var p, test := PeriodFrom(revs, i, cursor), Overlaps(from, until);
    PeriodFromShape(revs, i, cursor);
    var head0 := if Overlaps(from0, until0)(p) then [p] else [];
    var done0 := p.end >= until0 || (ReignEnd(revs, i).Some? && p.end >= ReignEnd(revs, i).value);
    FilterOfOne(p, test);
    hide PeriodFrom, ValidRevisions, LiesIn, Filter;
    var rest0 := if done0 then [] else Tile(revs, i, p.end, from0, until0);
    assert Tile(revs, i, cursor, from0, until0) == head0 + rest0;
    FilterConcat(head0, rest0, test);
    FilterOfNothing(test);
    if !done0 {
      if p.end >= until {
        TileShape(revs, i, p.end, from0, until0);
        FilterNothing(rest0, test);
      } else {
        TileNarrows(revs, i, p.end, from, until, from0, until0);
      }
    }
  }

  lemma {:induction false} ReignsNarrow(revs: seq<Revision>, i: nat, from: Date, until: Date, from0: Date, until0: Date)
    requires ValidRevisions(revs) && i <= |revs|
    requires from0 <= from < until <= until0
    ensures Reigns(revs, i, from, until) == Filter(Reigns(revs, i, from0, until0), Overlaps(from, until))
    decreases |revs| - i
  {
    var test := Overlaps(from, until);
    if i + 1 < |revs| {
      assert revs[i].effectiveFrom < revs[i + 1].effectiveFrom;
    }
    hide ValidRevisions, Filter;
    FilterOfNothing(test);
    if i < |revs| && revs[i].effectiveFrom < until0 {
      var lo, ends := revs[i].effectiveFrom, ReignEnd(revs, i);
      var rest, rest0 := Reigns(revs, i + 1, from, until), Reigns(revs, i + 1, from0, until0);
      ReignsNarrow(revs, i + 1, from, until, from0, until0);
      if ends.Some? && ends.value <= from0 {
        assert Reigns(revs, i, from, until) == [] + rest == rest;
        assert Reigns(revs, i, from0, until0) == [] + rest0 == rest0;
      } else {
        var tiles0 := Tile(revs, i, lo, from0, until0);
        FilterConcat(tiles0, rest0, test);
        TileShape(revs, i, lo, from0, until0);
        if lo >= until {
          FilterNothing(tiles0, test);
          assert rest == [] && Filter(tiles0, test) + Filter(rest0, test) == [];
        } else if ends.Some? && ends.value <= from {
          FilterNothing(tiles0, test);
          assert Reigns(revs, i, from, until) == [] + rest == rest;
          assert Filter(tiles0, test) + Filter(rest0, test) == rest;
        } else {
          TileNarrows(revs, i, lo, from, until, from0, until0);
        }
      }
    }
  }

  /** The periods of a narrower window are those of a wider one that overlap it. */
  lemma NarrowerWindow(revs: seq<Revision>, from: Date, until: Date, from0: Date, until0: Date)
    requires ValidRevisions(revs) && from0 <= from < until <= until0
    ensures PeriodsOverlapping(revs, from, until) ==
            Filter(PeriodsOverlapping(revs, from0, until0), Overlaps(from, until))
  {
    ReignsNarrow(revs, 0, from, until, from0, until0);
  }
}
