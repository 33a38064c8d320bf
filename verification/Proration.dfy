/** Targets pro-rated by day count and rounded to cents. */
module Proration {
  import opened Prelude
  import opened Seqs
  import opened Sums
  import opened Balances
  import opened Calendar
  import opened Timeline
  import opened Carry

  // ----- Rounding -----

  /** The nearest integer; a half goes to the even neighbour. */
  function RoundHalfEven(x: real): int {
    var below := x.Floor;
    var rest := x - below as real;
    if rest < 0.5 || (rest == 0.5 && below % 2 == 0) then below else below + 1
  }

  /** Rounded to two decimal places. */
  function RoundCents(x: Decimal): Decimal {
    RoundHalfEven(x * 100.0) as real / 100.0
  }

  lemma RoundsToNearest(x: real)
    ensures -0.5 <= RoundHalfEven(x) as real - x <= 0.5
  {
  }

  /** Rounding gives the one integer less than a half away, or, between two, the even one. */
  lemma RoundsHalfToEven(x: real, n: int)
    ensures n == RoundHalfEven(x) <==> -0.5 < n as real - x < 0.5 || ((n as real - x == 0.5 || x - n as real == 0.5) && n % 2 == 0)
  {
    var gap := n - x.Floor;
    assert n as real == x.Floor as real + gap as real;
  }

  /** Rounding two parts and rounding their sum differ by at most a cent. */
  lemma RoundingGapIsACent(a: Decimal, b: Decimal)
    ensures -0.01 <= RoundCents(a + b) - RoundCents(a) - RoundCents(b) <= 0.01
  {
    RoundsToNearest(a * 100.0);
    RoundsToNearest(b * 100.0);
    RoundsToNearest((a + b) * 100.0);
    var gap := RoundHalfEven((a + b) * 100.0) - RoundHalfEven(a * 100.0) - RoundHalfEven(b * 100.0);
    assert -1.5 <= gap as real <= 1.5;
    assert -1 <= gap <= 1;
  }

  // ----- Shares -----

  /** `value` times `days` over `length`. */
  function Fraction(value: Decimal, days: int, length: int): Decimal
    requires length > 0
  {
    value * (days as real / length as real)
  }

  lemma FractionsAdd(value: Decimal, i: int, j: int, length: int)
    requires length > 0
    ensures Fraction(value, i + j, length) == Fraction(value, i, length) + Fraction(value, j, length)
  {
    var r := 1.0 / length as real;
    assert i as real / length as real == i as real * r;
    assert j as real / length as real == j as real * r;
    assert (i + j) as real / length as real == (i as real + j as real) * r;
  }

  lemma FractionOfAll(value: Decimal, length: int)
    requires length > 0
    ensures Fraction(value, length, length) == value
  {
  }

  /** The target's share of `[segStart, segEnd)`, against the natural length of the period at `periodStart`. */
  function PeriodShare(rev: Revision, periodStart: Date, segStart: Date, segEnd: Date): Decimal {
    if rev.target.None? then 0.0
    else
      var length := rev.period.Advance(periodStart) - periodStart;
      if length <= 0 then rev.target.value.value
      else RoundCents(Fraction(rev.target.value.value, segEnd - segStart, length))
  }

  /** A period's share of the window, clipped to it. */
  function ShareIn(from: Date, until: Date): ResolvedPeriod -> Decimal {
    (p: ResolvedPeriod) => PeriodShare(p.revision, p.start, Max(p.start, from), Min(p.end, until))
  }

  predicate Untargeted(ps: seq<ResolvedPeriod>) {
    forall k :: 0 <= k < |ps| ==> ps[k].revision.target.None?
  }

  /** Every overlapping period's share, summed; nothing when no period has a target. */
  function ProratedTarget(revs: seq<Revision>, start: Date, end: Date): Option<Decimal>
    requires ValidRevisions(revs)
  {
    var ps := PeriodsOverlapping(revs, start, end);
    if Untargeted(ps) then None else Some(Sum(ps, ShareIn(start, end)))
  }

  function OrZero(d: Option<Decimal>): Decimal {
    if d.Some? then d.value else 0.0
  }

  lemma ProratedIsSum(revs: seq<Revision>, start: Date, end: Date)
    requires ValidRevisions(revs)
    ensures OrZero(ProratedTarget(revs, start, end)) == Sum(PeriodsOverlapping(revs, start, end), ShareIn(start, end))
  {
    var ps := PeriodsOverlapping(revs, start, end);
    if Untargeted(ps) {
      SumOfZeros(ps, ShareIn(start, end));
    }
  }

  /** A whole, untruncated period's share is its target rounded to cents. */
  lemma WholePeriod(revs: seq<Revision>, horizon: Date, k: nat)
    requires ValidRevisions(revs) && revs != []
    requires k < |Periods(revs, horizon)| && Periods(revs, horizon)[k].end <= horizon
    requires !Periods(revs, horizon)[k].stub
    ensures var p := Periods(revs, horizon)[k];
            ProratedTarget(revs, p.start, p.end) ==
            if p.revision.target.None? then None else Some(RoundCents(p.revision.target.value.value))
  {
    var p := Periods(revs, horizon)[k];
    OnePeriod(revs, horizon, k);
    PeriodsShape(revs, horizon);
    NoStubIsWhole(revs, p);
    WholeShareIs(p);
    hide Periods, PeriodsOverlapping, ShareIn, Sum, ValidRevisions;
    SumOne(p, ShareIn(p.start, p.end));
  }

  lemma NoStubIsWhole(revs: seq<Revision>, p: ResolvedPeriod)
    requires Resolved(revs, p) && !p.stub
    ensures p.end == p.revision.period.Advance(p.start)
  {
    var r: nat :| LiesIn(revs, p, r);
  }

  lemma WholeShareIs(p: ResolvedPeriod)
    requires p.start < p.end == p.revision.period.Advance(p.start)
    ensures ShareIn(p.start, p.end)(p) == if p.revision.target.None? then 0.0 else RoundCents(p.revision.target.value.value)
  {
    if p.revision.target.Some? {
      FractionOfAll(p.revision.target.value.value, p.end - p.start);
    }
  }

  // ----- Splitting a window -----

  /** `mid` falls strictly inside `p`. */
  predicate Cuts(mid: Date, p: ResolvedPeriod) {
    p.start < mid < p.end
  }

  /** How many periods start before `mid`. */
  function StartedBefore(ps: seq<ResolvedPeriod>, mid: Date): (n: nat)
    ensures n <= |ps|
  {
    if ps == [] then 0
    else if ps[|ps| - 1].start < mid then |ps|
    else StartedBefore(ps[..|ps| - 1], mid)
  }

  lemma {:induction false} StartedBeforeSplits(ps: seq<ResolvedPeriod>, mid: Date)
    requires Chained(ps)
    ensures forall k :: 0 <= k < StartedBefore(ps, mid) ==> ps[k].start < mid
    ensures forall k :: StartedBefore(ps, mid) <= k < |ps| ==> mid <= ps[k].start
    ensures forall k :: 0 <= k < StartedBefore(ps, mid) - 1 ==> ps[k].end < mid
  {
    if ps == [] {
    } else {
      if ps[|ps| - 1].start < mid {
        forall k | 0 <= k < |ps| - 1 ensures ps[k].end < mid {
          ChainedOrder(ps, k, |ps| - 1);
        }
      } else {
        StartedBeforeSplits(ps[..|ps| - 1], mid);
      }
    }
  }

  /** How many periods end by `mid`. */
  function EndedBy(ps: seq<ResolvedPeriod>, mid: Date): (n: nat)
    ensures n <= StartedBefore(ps, mid) <= n + 1
  {
    var started := StartedBefore(ps, mid);
    if started > 0 && Cuts(mid, ps[started - 1]) then started - 1 else started
  }

  lemma EndedBySplits(ps: seq<ResolvedPeriod>, mid: Date)
    requires Chained(ps)
    ensures forall k :: 0 <= k < EndedBy(ps, mid) ==> ps[k].end <= mid
    ensures forall k :: EndedBy(ps, mid) <= k < |ps| ==> mid < ps[k].end
  {
    StartedBeforeSplits(ps, mid);
  }

  lemma LeftOverlaps(ps: seq<ResolvedPeriod>, from: Date, mid: Date, until: Date, k: nat)
    requires Chained(ps) && from < mid < until && k < |ps| && Overlaps(from, until)(ps[k])
    ensures Overlaps(from, mid)(ps[k]) <==> 0 <= k < StartedBefore(ps, mid)
  {
    StartedBeforeSplits(ps, mid);
    hide StartedBefore, Chained;
  }

  lemma RightOverlaps(ps: seq<ResolvedPeriod>, from: Date, mid: Date, until: Date, k: nat)
    requires Chained(ps) && from < mid < until && k < |ps| && Overlaps(from, until)(ps[k])
    ensures Overlaps(mid, until)(ps[k]) <==> EndedBy(ps, mid) <= k < |ps|
  {
    EndedBySplits(ps, mid);
    hide EndedBy, StartedBefore, Chained;
  }

  lemma LeftHalf(ps: seq<ResolvedPeriod>, from: Date, mid: Date, until: Date)
    requires Chained(ps) && from < mid < until && forall k :: 0 <= k < |ps| ==> Overlaps(from, until)(ps[k])
    ensures Filter(ps, Overlaps(from, mid)) == ps[..StartedBefore(ps, mid)]
  {
    hide *;
    forall k | 0 <= k < |ps| ensures Overlaps(from, mid)(ps[k]) <==> 0 <= k < StartedBefore(ps, mid) {
      LeftOverlaps(ps, from, mid, until, k);
    }
    FilterSlice(ps, Overlaps(from, mid), 0, StartedBefore(ps, mid));
    assert ps[0..StartedBefore(ps, mid)] == ps[..StartedBefore(ps, mid)];
  }

  lemma RightHalf(ps: seq<ResolvedPeriod>, from: Date, mid: Date, until: Date)
    requires Chained(ps) && from < mid < until && forall k :: 0 <= k < |ps| ==> Overlaps(from, until)(ps[k])
    ensures Filter(ps, Overlaps(mid, until)) == ps[EndedBy(ps, mid)..]
  {
    hide *;
    forall k | 0 <= k < |ps| ensures Overlaps(mid, until)(ps[k]) <==> EndedBy(ps, mid) <= k < |ps| {
      RightOverlaps(ps, from, mid, until, k);
    }
    FilterSlice(ps, Overlaps(mid, until), EndedBy(ps, mid), |ps|);
    assert ps[EndedBy(ps, mid)..|ps|] == ps[EndedBy(ps, mid)..];
  }

  /** The periods of the two halves of a window; a period `mid` cuts is in both. */
  lemma HalvesOfPeriods(revs: seq<Revision>, from: Date, mid: Date, until: Date)
    requires ValidRevisions(revs) && from < mid < until
    ensures var ps := PeriodsOverlapping(revs, from, until);
            && PeriodsOverlapping(revs, from, mid) == ps[..StartedBefore(ps, mid)]
            && PeriodsOverlapping(revs, mid, until) == ps[EndedBy(ps, mid)..]
  {
    var ps := PeriodsOverlapping(revs, from, until);
    WindowShape(revs, from, until);
    hide PeriodsOverlapping, Filter, StartedBefore, EndedBy, ValidRevisions, Chained;
    if revs == [] {
      assert ps == [];
      NoPeriods(revs, from, mid);
      NoPeriods(revs, mid, until);
    } else {
      NarrowerWindow(revs, from, mid, from, until);
      NarrowerWindow(revs, mid, until, from, until);
      LeftHalf(ps, from, mid, until);
      RightHalf(ps, from, mid, until);
    }
  }

  lemma NoPeriods(revs: seq<Revision>, from: Date, until: Date)
    requires revs == []
    ensures PeriodsOverlapping(revs, from, until) == []
  {
  }

  /** What rounding costs the period `mid` cuts; zero when it cuts none. */
  function CutGap(ps: seq<ResolvedPeriod>, from: Date, mid: Date, until: Date): Decimal {
    var k := EndedBy(ps, mid);
    if k == StartedBefore(ps, mid) then 0.0
    else ShareIn(from, until)(ps[k]) - ShareIn(from, mid)(ps[k]) - ShareIn(mid, until)(ps[k])
  }

  lemma LeftShare(p: ResolvedPeriod, from: Date, mid: Date, until: Date)
    requires p.end <= mid < until
    ensures ShareIn(from, until)(p) == ShareIn(from, mid)(p)
  {
    hide PeriodShare;
  }

  lemma RightShare(p: ResolvedPeriod, from: Date, mid: Date, until: Date)
    requires from < mid <= p.start
    ensures ShareIn(from, until)(p) == ShareIn(mid, until)(p)
  {
    hide PeriodShare;
  }

  lemma SharesOfHalves(ps: seq<ResolvedPeriod>, from: Date, mid: Date, until: Date)
    requires Chained(ps) && from < mid < until
    ensures Sum(ps, ShareIn(from, until)) ==
            Sum(ps[..StartedBefore(ps, mid)], ShareIn(from, mid)) + Sum(ps[EndedBy(ps, mid)..], ShareIn(mid, until)) + CutGap(ps, from, mid, until)
  {
    var ended, started := EndedBy(ps, mid), StartedBefore(ps, mid);
    EndedBySplits(ps, mid);
    StartedBeforeSplits(ps, mid);
    hide ShareIn, Sum, EndedBy, StartedBefore, Chained;
    var whole, left, right := ShareIn(from, until), ShareIn(from, mid), ShareIn(mid, until);
    forall k | 0 <= k < ended ensures whole(ps[..ended][k]) == left(ps[..ended][k]) {
      LeftShare(ps[k], from, mid, until);
    }
    SumPointwise(ps[..ended], whole, left);
    forall k | 0 <= k < |ps| - started ensures whole(ps[started..][k]) == right(ps[started..][k]) {
      RightShare(ps[started + k], from, mid, until);
    }
    SumPointwise(ps[started..], whole, right);
    JoinHalves(ps, ended, started, whole, left, right);
  }

  /** Sums over two halves sharing at most one element. */
  lemma JoinHalves(ps: seq<ResolvedPeriod>, ended: nat, started: nat, whole: ResolvedPeriod -> Decimal,
                   left: ResolvedPeriod -> Decimal, right: ResolvedPeriod -> Decimal)
    requires ended <= started <= |ps| && started <= ended + 1
    requires Sum(ps[..ended], whole) == Sum(ps[..ended], left) && Sum(ps[started..], whole) == Sum(ps[started..], right)
    ensures Sum(ps, whole) == Sum(ps[..started], left) + Sum(ps[ended..], right)
            + if ended == started then 0.0 else whole(ps[ended]) - left(ps[ended]) - right(ps[ended])
  {
    hide *;
    SumConcat(ps[..started], ps[started..], whole);
    assert ps == ps[..started] + ps[started..];
    if ended < started {
      var p := ps[ended];
      assert ps[..started] == ps[..ended] + [p] && ps[ended..] == [p] + ps[started..];
      SumAppend(ps[..ended], p, whole);
      SumAppend(ps[..ended], p, left);
      SumConcat([p], ps[started..], right);
      SumOne(p, right);
    }
  }

  lemma SumOne(p: ResolvedPeriod, f: ResolvedPeriod -> Decimal)
    ensures Sum([p], f) == f(p)
  {
    assert [p][..0] == [];
  }

  /** The shares of two adjacent windows and of their union differ by the cut period's rounding alone. */
  lemma SplitLeavesTheCutGap(revs: seq<Revision>, from: Date, mid: Date, until: Date)
    requires ValidRevisions(revs) && from < mid < until
    ensures OrZero(ProratedTarget(revs, from, until)) ==
            OrZero(ProratedTarget(revs, from, mid)) + OrZero(ProratedTarget(revs, mid, until))
            + CutGap(PeriodsOverlapping(revs, from, until), from, mid, until)
  {
    HalvesOfPeriods(revs, from, mid, until);
    WindowShape(revs, from, until);
    SharesOfHalves(PeriodsOverlapping(revs, from, until), from, mid, until);
    ProratedIsSum(revs, from, until);
    ProratedIsSum(revs, from, mid);
    ProratedIsSum(revs, mid, until);
  }

  lemma PeriodsAreLong(revs: seq<Revision>, p: ResolvedPeriod)
    requires ValidRevisions(revs) && Resolved(revs, p)
    ensures p.start < p.revision.period.Advance(p.start)
  {
    var r: nat :| LiesIn(revs, p, r);
    assert revs[r].period.Valid();
  }

  /** Days of the window in `p` before and after `mid`, and the natural length they are measured against. */
  function DaysBefore(p: ResolvedPeriod, from: Date, mid: Date): int {
    mid - Max(p.start, from)
  }

  function DaysAfter(p: ResolvedPeriod, mid: Date, until: Date): int {
    Min(p.end, until) - mid
  }

  function Length(p: ResolvedPeriod): int {
    p.revision.period.Advance(p.start) - p.start
  }

  /** The cut period's shares of the two halves and of the whole. */
  lemma CutParts(p: ResolvedPeriod, from: Date, mid: Date, until: Date)
    requires Length(p) > 0 && Cuts(mid, p) && from < mid < until && p.revision.target.Some?
    ensures DaysBefore(p, from, mid) > 0 && DaysAfter(p, mid, until) > 0
    ensures ShareIn(from, until)(p) ==
            RoundCents(Fraction(p.revision.target.value.value, DaysBefore(p, from, mid) + DaysAfter(p, mid, until), Length(p)))
    ensures ShareIn(from, mid)(p) ==
            RoundCents(Fraction(p.revision.target.value.value, DaysBefore(p, from, mid), Length(p)))
    ensures ShareIn(mid, until)(p) ==
            RoundCents(Fraction(p.revision.target.value.value, DaysAfter(p, mid, until), Length(p)))
  {
    hide RoundCents, Fraction;
  }

  function GapOf(value: Decimal, i: int, j: int, n: int): Decimal
    requires n > 0
  {
    RoundCents(Fraction(value, i + j, n)) - RoundCents(Fraction(value, i, n)) - RoundCents(Fraction(value, j, n))
  }

  lemma GapIsACent(value: Decimal, i: int, j: int, n: int)
    requires n > 0
    ensures -0.01 <= GapOf(value, i, j, n) <= 0.01
  {
    FractionsAdd(value, i, j, n);
    RoundingGapIsACent(Fraction(value, i, n), Fraction(value, j, n));
  }

  /** The gap a cut leaves is the rounding gap of its two day counts. */
  lemma CutGapIs(ps: seq<ResolvedPeriod>, from: Date, mid: Date, until: Date)
    requires Chained(ps) && from < mid < until && CutsSome(mid, ps)
    ensures EndedBy(ps, mid) < |ps| && Cuts(mid, ps[EndedBy(ps, mid)])
    ensures var p := ps[EndedBy(ps, mid)];
            && (Length(p) > 0 && p.revision.target.Some? ==>
                  CutGap(ps, from, mid, until) ==
                  GapOf(p.revision.target.value.value, DaysBefore(p, from, mid), DaysAfter(p, mid, until), Length(p)))
            && (p.revision.target.None? ==> CutGap(ps, from, mid, until) == 0.0)
  {
    CutIsLast(ps, mid);
    var p := ps[EndedBy(ps, mid)];
    if p.revision.target.Some? && Length(p) > 0 {
      CutParts(p, from, mid, until);
      hide RoundCents, Fraction, ShareIn;
    }
  }

  predicate CutsSome(mid: Date, ps: seq<ResolvedPeriod>) {
    exists k :: 0 <= k < |ps| && Cuts(mid, ps[k])
  }

  lemma CutIsLast(ps: seq<ResolvedPeriod>, mid: Date)
    requires Chained(ps)
    ensures CutsSome(mid, ps) <==> EndedBy(ps, mid) < StartedBefore(ps, mid)
    ensures EndedBy(ps, mid) < StartedBefore(ps, mid) ==> Cuts(mid, ps[EndedBy(ps, mid)])
  {
    StartedBeforeSplits(ps, mid);
  }

  /** Splitting a window anywhere moves at most a cent; splitting it between two periods moves nothing. */
  lemma SplitMovesAtMostACent(revs: seq<Revision>, from: Date, mid: Date, until: Date)
    requires ValidRevisions(revs) && from < mid < until
    ensures var whole := OrZero(ProratedTarget(revs, from, until));
            var halves := OrZero(ProratedTarget(revs, from, mid)) + OrZero(ProratedTarget(revs, mid, until));
            && -0.01 <= whole - halves <= 0.01
            && (!CutsSome(mid, PeriodsOverlapping(revs, from, until)) ==> whole == halves)
  {
    var ps := PeriodsOverlapping(revs, from, until);
    SplitLeavesTheCutGap(revs, from, mid, until);
    WindowShape(revs, from, until);
    CutIsLast(ps, mid);
    hide GapOf, CutGap, ProratedTarget, Length, DaysBefore, DaysAfter, PeriodsOverlapping;
    if CutsSome(mid, ps) {
      CutGapIs(ps, from, mid, until);
      var p := ps[EndedBy(ps, mid)];
      if p.revision.target.Some? {
        LengthIsPositive(revs, p);
        GapIsACent(p.revision.target.value.value, DaysBefore(p, from, mid), DaysAfter(p, mid, until), Length(p));
      }
    } else {
      NoCutNoGap(ps, from, mid, until);
    }
  }

  lemma LengthIsPositive(revs: seq<Revision>, p: ResolvedPeriod)
    requires ValidRevisions(revs) && Resolved(revs, p)
    ensures Length(p) > 0
  {
    PeriodsAreLong(revs, p);
  }

  lemma NoCutNoGap(ps: seq<ResolvedPeriod>, from: Date, mid: Date, until: Date)
    requires EndedBy(ps, mid) == StartedBefore(ps, mid)
    ensures CutGap(ps, from, mid, until) == 0.0
  {
  }

  // ----- Exactly when a split is exact -----

  /** A target whose two parts both round to nothing while their sum rounds to a cent. */
  lemma SomeTargetLosesACent(i: int, j: int, n: int) returns (value: Decimal)
    requires i > 0 && j > 0 && n > 0
    ensures GapOf(value, i, j, n) == 0.01
  {
    var larger, smaller := Max(i, j), Min(i, j);
    value := 0.005 * (n as real / larger as real);
    FractionsAdd(value, i, j, n);
    HalfACent(larger, larger, n);
    HalfACent(smaller, larger, n);
    hide Fraction, RoundCents;
    Part(larger, larger);
    Part(smaller, larger);
    Ratio(larger);
    assert Fraction(value, larger, n) == 0.005;
    var part := Fraction(value, smaller, n);
    assert 0.0 < part <= 0.005;
    LostCent(part);
  }

  lemma Ratio(n: int)
    requires n > 0
    ensures n as real / n as real == 1.0
  {
  }

  lemma LostCent(part: Decimal)
    requires 0.0 < part <= 0.005
    ensures RoundCents(0.005) == 0.0 && RoundCents(part) == 0.0
    ensures RoundCents(part + 0.005) == 0.01 && RoundCents(0.005 + part) == 0.01
  {
    assert 0.005 * 100.0 == 0.5;
  }

  lemma HalfACent(days: int, larger: int, n: int)
    requires larger > 0 && n > 0
    ensures Fraction(0.005 * (n as real / larger as real), days, n) == 0.005 * (days as real / larger as real)
  {
    var N, L, D := n as real, larger as real, days as real;
    assert (N / L) * (D / N) == D / L;
  }

  lemma Part(smaller: int, larger: int)
    requires 0 < smaller <= larger
    ensures 0.0 < 0.005 * (smaller as real / larger as real) <= 0.005
  {
    var q := smaller as real / larger as real;
    assert q * larger as real == smaller as real;
    assert 0.0 < q <= 1.0;
  }

  /** The same dates and periods; targets may differ. */
  ghost predicate SameSchedule(revs: seq<Revision>, others: seq<Revision>) {
    && |revs| == |others|
    && forall i :: 0 <= i < |revs| ==>
       others[i].effectiveFrom == revs[i].effectiveFrom && others[i].period == revs[i].period
  }

  ghost predicate SameDates(ps: seq<ResolvedPeriod>, qs: seq<ResolvedPeriod>) {
    && |ps| == |qs|
    && forall k :: 0 <= k < |ps| ==>
         ps[k].start == qs[k].start && ps[k].end == qs[k].end && ps[k].revision.period == qs[k].revision.period
  }

  lemma {:induction false} TilesAlike(revs: seq<Revision>, others: seq<Revision>, i: nat, cursor: Date, from: Date,
                                      until: Date)
    requires ValidRevisions(revs) && ValidRevisions(others) && SameSchedule(revs, others) &&
             InReign(revs, i, cursor) && InReign(others, i, cursor)
    ensures SameDates(Tile(revs, i, cursor, from, until), Tile(others, i, cursor, from, until))
    decreases until - cursor
  {
    var p, q := PeriodFrom(revs, i, cursor), PeriodFrom(others, i, cursor);
    PeriodFromShape(revs, i, cursor);
    assert p.start == q.start && p.end == q.end && p.revision.period == q.revision.period;
    assert ReignEnd(revs, i) == ReignEnd(others, i);
    hide ValidRevisions, SameSchedule, PeriodFrom, ReignEnd;
    if !(p.end >= until || (ReignEnd(revs, i).Some? && p.end >= ReignEnd(revs, i).value)) {
      TilesAlike(revs, others, i, p.end, from, until);
    }
  }

  lemma {:induction false} ReignsAlike(revs: seq<Revision>, others: seq<Revision>, i: nat, from: Date, until: Date)
    requires ValidRevisions(revs) && ValidRevisions(others) && SameSchedule(revs, others) && i <= |revs|
    ensures SameDates(Reigns(revs, i, from, until), Reigns(others, i, from, until))
    decreases |revs| - i
  {
    hide Tile;
    if i < |revs| && revs[i].effectiveFrom < until {
      ReignsAlike(revs, others, i + 1, from, until);
      if !(ReignEnd(revs, i).Some? && ReignEnd(revs, i).value <= from) {
        TilesAlike(revs, others, i, revs[i].effectiveFrom, from, until);
      }
    }
  }

  function Retargeted(revs: seq<Revision>, value: Decimal): (others: seq<Revision>)
    ensures |others| == |revs| && forall i :: 0 <= i < |revs| ==>
            others[i] == revs[i].(target := Some(Amount(value, 0)))
  {
    seq(|revs|, i requires 0 <= i < |revs| => revs[i].(target := Some(Amount(value, 0))))
  }

  ghost predicate AddsUp(revs: seq<Revision>, from: Date, mid: Date, until: Date)
    requires ValidRevisions(revs)
  {
    OrZero(ProratedTarget(revs, from, until)) ==
    OrZero(ProratedTarget(revs, from, mid)) + OrZero(ProratedTarget(revs, mid, until))
  }

  /** Whatever the targets on this schedule, the halves add up to the whole. */
  ghost predicate AlwaysAddsUp(revs: seq<Revision>, from: Date, mid: Date, until: Date) {
    forall others :: SameSchedule(revs, others) && ValidRevisions(others) ==> AddsUp(others, from, mid, until)
  }

  /** Cutting a period loses a cent for some target. */
  lemma CutLosesACent(revs: seq<Revision>, from: Date, mid: Date, until: Date) returns (value: Decimal)
    requires ValidRevisions(revs) && from < mid < until && CutsSome(mid, PeriodsOverlapping(revs, from, until))
    ensures SameSchedule(revs, Retargeted(revs, value)) && ValidRevisions(Retargeted(revs, value))
    ensures !AddsUp(Retargeted(revs, value), from, mid, until)
  {
    var ps := PeriodsOverlapping(revs, from, until);
    WindowShape(revs, from, until);
    CutIsLast(ps, mid);
    var p := ps[EndedBy(ps, mid)];
    LengthIsPositive(revs, p);
    assert DaysBefore(p, from, mid) > 0 && DaysAfter(p, mid, until) > 0;
    hide GapOf;
    value := SomeTargetLosesACent(DaysBefore(p, from, mid), DaysAfter(p, mid, until), Length(p));
    hide *;
    RetargetedGap(revs, from, mid, until, value);
    assert 0.01 != 0.0;
    GapMeansUnequal(Retargeted(revs, value), from, mid, until);
  }

  lemma GapMeansUnequal(revs: seq<Revision>, from: Date, mid: Date, until: Date)
    requires ValidRevisions(revs) && from < mid < until
    ensures AddsUp(revs, from, mid, until) <==> CutGap(PeriodsOverlapping(revs, from, until), from, mid, until) == 0.0
  {
    SplitLeavesTheCutGap(revs, from, mid, until);
  }

  lemma OneCut(ps: seq<ResolvedPeriod>, mid: Date, j: nat, k: nat)
    requires Chained(ps) && j < |ps| && k < |ps| && Cuts(mid, ps[j]) && Cuts(mid, ps[k])
    ensures j == k
  {
    if j < k {
      ChainedOrder(ps, j, k);
    } else if k < j {
      ChainedOrder(ps, k, j);
    }
  }

  /** Retargeting keeps the cut where it is, with the new target. */
  lemma RetargetedCut(revs: seq<Revision>, from: Date, mid: Date, until: Date, value: Decimal)
    requires ValidRevisions(revs) && from < mid < until && CutsSome(mid, PeriodsOverlapping(revs, from, until))
    ensures SameSchedule(revs, Retargeted(revs, value)) && ValidRevisions(Retargeted(revs, value))
    ensures var ps, qs := PeriodsOverlapping(revs, from, until), PeriodsOverlapping(Retargeted(revs, value), from, until);
            && Chained(ps) && Chained(qs) && CutsSome(mid, qs) && EndedBy(ps, mid) < |ps| && EndedBy(qs, mid) < |qs|
            && var p, q := ps[EndedBy(ps, mid)], qs[EndedBy(qs, mid)];
               q.start == p.start && q.end == p.end && q.revision.period == p.revision.period &&
                 q.revision.target == Some(Amount(value, 0))
  {
    var others := Retargeted(revs, value);
    RetargetedIsValid(revs, value);
    ScheduleSetsDates(revs, others, from, until);
    WindowShape(revs, from, until);
    WindowShape(others, from, until);
    var ps, qs := PeriodsOverlapping(revs, from, until), PeriodsOverlapping(others, from, until);
    hide *;
    SameCut(ps, qs, mid);
    RetargetedTarget(revs, qs[EndedBy(qs, mid)], value);
  }

  lemma RetargetedIsValid(revs: seq<Revision>, value: Decimal)
    requires ValidRevisions(revs)
    ensures SameSchedule(revs, Retargeted(revs, value)) && ValidRevisions(Retargeted(revs, value))
  {
    var others := Retargeted(revs, value);
    assert forall i :: 0 <= i < |revs| ==> others[i].period == revs[i].period;
  }

  lemma RetargetedTarget(revs: seq<Revision>, q: ResolvedPeriod, value: Decimal)
    requires Resolved(Retargeted(revs, value), q)
    ensures q.revision.target == Some(Amount(value, 0))
  {
    var r: nat :| LiesIn(Retargeted(revs, value), q, r);
  }

  lemma ScheduleSetsDates(revs: seq<Revision>, others: seq<Revision>, from: Date, until: Date)
    requires ValidRevisions(revs) && ValidRevisions(others) && SameSchedule(revs, others)
    ensures SameDates(PeriodsOverlapping(revs, from, until), PeriodsOverlapping(others, from, until))
  {
    ReignsAlike(revs, others, 0, from, until);
  }

  lemma SameCut(ps: seq<ResolvedPeriod>, qs: seq<ResolvedPeriod>, mid: Date)
    requires Chained(ps) && Chained(qs) && SameDates(ps, qs) && CutsSome(mid, ps)
    ensures CutsSome(mid, qs) && EndedBy(qs, mid) < |qs| && EndedBy(ps, mid) == EndedBy(qs, mid)
    ensures var p, q := ps[EndedBy(ps, mid)], qs[EndedBy(qs, mid)];
            q.start == p.start && q.end == p.end && q.revision.period == p.revision.period
  {
    CutIsLast(ps, mid);
    assert Cuts(mid, qs[EndedBy(ps, mid)]);
    CutIsLast(qs, mid);
    hide EndedBy, StartedBefore, Chained;
    OneCut(qs, mid, EndedBy(ps, mid), EndedBy(qs, mid));
  }

  lemma RetargetedGap(revs: seq<Revision>, from: Date, mid: Date, until: Date, value: Decimal)
    requires ValidRevisions(revs) && from < mid < until && CutsSome(mid, PeriodsOverlapping(revs, from, until))
    ensures SameSchedule(revs, Retargeted(revs, value)) && ValidRevisions(Retargeted(revs, value))
    ensures var ps, qs := PeriodsOverlapping(revs, from, until), PeriodsOverlapping(Retargeted(revs, value), from, until);
            && EndedBy(ps, mid) < |ps| && Length(ps[EndedBy(ps, mid)]) > 0
            && var p := ps[EndedBy(ps, mid)];
               CutGap(qs, from, mid, until) ==
                 GapOf(value, DaysBefore(p, from, mid), DaysAfter(p, mid, until), Length(p))
  {
    RetargetedCut(revs, from, mid, until, value);
    var ps, qs := PeriodsOverlapping(revs, from, until), PeriodsOverlapping(Retargeted(revs, value), from, until);
    WindowShape(revs, from, until);
    hide *;
    var p, q := ps[EndedBy(ps, mid)], qs[EndedBy(qs, mid)];
    LengthIsPositive(revs, p);
    SameDays(p, q, from, mid, until);
    CutGapIs(qs, from, mid, until);
  }

  lemma SameDays(p: ResolvedPeriod, q: ResolvedPeriod, from: Date, mid: Date, until: Date)
    requires q.start == p.start && q.end == p.end && q.revision.period == p.revision.period
    ensures DaysBefore(q, from, mid) == DaysBefore(p, from, mid) && DaysAfter(q, mid, until) == DaysAfter(p, mid, until)
    ensures Length(q) == Length(p)
  {
  }

  /** A split is exact for every choice of targets if and only if it falls between two periods. */
  lemma ExactIffBetweenPeriods(revs: seq<Revision>, from: Date, mid: Date, until: Date)
    requires ValidRevisions(revs) && from < mid < until
    ensures AlwaysAddsUp(revs, from, mid, until) <==> !CutsSome(mid, PeriodsOverlapping(revs, from, until))
  {
    if CutsSome(mid, PeriodsOverlapping(revs, from, until)) {
      var value := CutLosesACent(revs, from, mid, until);
    } else {
      forall others | SameSchedule(revs, others) && ValidRevisions(others) ensures AddsUp(others, from, mid, until) {
        ScheduleSetsDates(revs, others, from, until);
        SplitMovesAtMostACent(others, from, mid, until);
      }
    }
  }

  function EveryTwoDays(value: Decimal): Revision {
    Revision(0, 0, 0, Some(Amount(value, 0)), Custom((d: Date) => d + 2), CarryForward, None)
  }

  /** A cent over two days: each day's share rounds to nothing, both days' share is the whole cent. */
  lemma OneCentOverTwoDays()
    ensures ValidRevisions([EveryTwoDays(0.01)])
    ensures ProratedTarget([EveryTwoDays(0.01)], 0, 2) == Some(0.01)
    ensures ProratedTarget([EveryTwoDays(0.01)], 0, 1) == Some(0.0) &&
            ProratedTarget([EveryTwoDays(0.01)], 1, 2) == Some(0.0)
  {
    var revs := [EveryTwoDays(0.01)];
    var p := ResolvedPeriod(0, 2, revs[0], false);
    assert forall date :: date < revs[0].period.step(date);
    assert ValidRevisions(revs);
    assert PeriodFrom(revs, 0, 0) == p;
    OnePeriodWindow(revs, p, 0, 2);
    OnePeriodWindow(revs, p, 0, 1);
    OnePeriodWindow(revs, p, 1, 2);
    HalfCent();
  }

  lemma OnePeriodWindow(revs: seq<Revision>, p: ResolvedPeriod, from: Date, until: Date)
    requires ValidRevisions(revs) && |revs| == 1 && revs[0].effectiveFrom == 0 && revs[0].target.Some?
    requires PeriodFrom(revs, 0, 0) == p && p.start <= from < until <= p.end
    ensures ProratedTarget(revs, from, until) == Some(ShareIn(from, until)(p))
  {
    assert Tile(revs, 0, 0, from, until) == [p];
    assert Reigns(revs, 1, from, until) == [];
    assert PeriodsOverlapping(revs, from, until) == [p] + [] == [p];
    SumOne(p, ShareIn(from, until));
  }

  lemma HalfCent()
    ensures RoundCents(Fraction(0.01, 1, 2)) == 0.0 && RoundCents(Fraction(0.01, 2, 2)) == 0.01
  {
    assert Fraction(0.01, 1, 2) == 0.005 && Fraction(0.01, 2, 2) == 0.01;
    assert 0.005 * 100.0 == 0.5 && 0.01 * 100.0 == 1.0;
  }
}
