/** Depreciation of manual assets: a clamped accumulation, one recorded period after another. */
module Depreciation {
  import opened Prelude
  import opened Sums
  import opened Seqs

  datatype Kind = DepositAccount | ManualAsset | Receivable | VirtualAllocation | Group

  datatype Policy = NoDepreciation | StraightLine(annualRate: Decimal) | DecliningBalance(annualRate: Decimal)

  /** The account columns depreciation reads; nothing here ever changes them. */
  datatype Asset = Asset(kind: Kind, cost: Option<Decimal>, acquired: Option<Date>, policy: Option<Policy>)

  /** One recorded depreciation; both dates are inclusive. */
  datatype Row = Row(account: AccountId, commodity: Code, amount: Decimal, start: Date, end: Date)

  datatype Posting = Posting(account: AccountId, commodity: Code, amount: Decimal, date: Date)

  const DAYS_PER_YEAR: Decimal := 365.25

  /** Inclusive day count; zero when `to` precedes `from`. */
  function DaysBetween(from: Date, to: Date): (days: nat) {
    if to < from then 0 else to - from + 1
  }

  function IsOf(account: AccountId, commodity: Code): Row -> bool {
    (r: Row) => r.account == account && r.commodity == commodity
  }

  function AmountOf(): Row -> Decimal {
    (r: Row) => r.amount
  }

  function RowsOf(rows: seq<Row>, account: AccountId, commodity: Code): (own: seq<Row>)
    ensures forall r :: r in own ==> r in rows && r.account == account && r.commodity == commodity
  {
    FilterMembers(rows, IsOf(account, commodity));
    Filter(rows, IsOf(account, commodity))
  }

  function Total(rows: seq<Row>): Decimal {
    Sum(rows, AmountOf())
  }

  /** The latest recorded end among `rows`. */
  function LastEnd(rows: seq<Row>): Date
    requires rows != []
  {
    var last := rows[|rows| - 1].end;
    if |rows| == 1 then last else Max(LastEnd(rows[..|rows| - 1]), last)
  }

  function PeriodStart(rows: seq<Row>, acquired: Date): Date {
    if rows == [] then acquired else LastEnd(rows) + 1
  }

  function Daily(base: Decimal, rate: Decimal): Decimal {
    base * rate / DAYS_PER_YEAR
  }

  function Over(daily: Decimal, days: nat): Decimal {
    daily * (days as real)
  }

  /** Depreciation before clamping: on the cost, or on what is left of it. */
  function Computed(policy: Policy, cost: Decimal, book: Decimal, days: nat): Decimal {
    match policy
    case NoDepreciation => 0.0
    case StraightLine(rate) => Over(Daily(cost, rate), days)
    case DecliningBalance(rate) => Over(Daily(book, rate), days)
  }

  /** Never more than the remaining book value, and never negative. */
  function Clamped(amount: Decimal, book: Decimal): (r: Decimal)
    ensures r >= 0.0 && (r == 0.0 || r <= book)
  {
    MaxDecimal(MinDecimal(amount, book), 0.0)
  }

  /** The row one call appends to an asset's own rows. */
  function NextRow(account: AccountId, commodity: Code, policy: Policy, cost: Decimal, acquired: Date,
                   rows: seq<Row>, asOf: Date): Row
  {
    var start := PeriodStart(rows, acquired);
    var book := cost - Total(rows);
    Row(account, commodity, Clamped(Computed(policy, cost, book, DaysBetween(start, asOf)), book), start, asOf)
  }

  // ----- Runs of calls -----

  /** One asset's fixed terms in one commodity. */
  datatype Terms = Terms(account: AccountId, commodity: Code, policy: Policy, cost: Decimal, acquired: Date)

  function Step(t: Terms, rows: seq<Row>, asOf: Date): seq<Row> {
    rows + [NextRow(t.account, t.commodity, t.policy, t.cost, t.acquired, rows, asOf)]
  }

  /** The rows after successful calls with these ends, from no rows. */
  function Run(t: Terms, ends: seq<Date>): (rows: seq<Row>)
    ensures |rows| == |ends|
  {
    if ends == [] then [] else Step(t, Run(t, ends[..|ends| - 1]), ends[|ends| - 1])
  }

  /** Each end is on or after the period start the call finds, so no call in the run is rejected. */
  predicate Accepted(t: Terms, ends: seq<Date>) {
    && (ends != [] ==> t.acquired <= ends[0])
    && forall i :: 0 < i < |ends| ==> ends[i - 1] < ends[i]
  }

  lemma {:induction false} AcceptedAscends(t: Terms, ends: seq<Date>, i: nat)
    requires Accepted(t, ends) && i < |ends|
    ensures t.acquired <= ends[i]
  {
    if i == 0 {
    } else {
      AcceptedAscends(t, ends, i - 1);
    }
  }

  /** Periods start at the acquisition date, meet end to start, and each holds at least one day. */
  predicate Tiles(rows: seq<Row>, acquired: Date) {
    && (rows != [] ==> rows[0].start == acquired)
    && (forall i :: 0 <= i < |rows| ==> rows[i].start <= rows[i].end)
    && (forall i :: 0 < i < |rows| ==> rows[i].start == rows[i - 1].end + 1)
  }

  predicate Bounded(rows: seq<Row>, cost: Decimal) {
    && (forall i :: 0 <= i < |rows| ==> rows[i].amount >= 0.0)
    && 0.0 <= Total(rows) <= MaxDecimal(cost, 0.0)
  }

  lemma TilesEndsAscend(rows: seq<Row>, acquired: Date, i: nat, j: nat)
    requires Tiles(rows, acquired)
    requires i < j < |rows|
    ensures rows[i].end < rows[j].start
    decreases j
  {
    if i < j - 1 {
      TilesEndsAscend(rows, acquired, i, j - 1);
    }
  }

  lemma {:induction false} TilesLastEnd(rows: seq<Row>, acquired: Date)
    requires Tiles(rows, acquired) && rows != []
    ensures LastEnd(rows) == rows[|rows| - 1].end
  {
    if |rows| > 1 {
      TilesLastEnd(rows[..|rows| - 1], acquired);
    }
  }

  lemma TotalAppend(rows: seq<Row>, r: Row)
    ensures Total(rows + [r]) == Total(rows) + r.amount
  {
    SumAppend(rows, r, AmountOf());
  }

  lemma TilesAppend(rows: seq<Row>, r: Row, acquired: Date)
    requires Tiles(rows, acquired)
    requires r.start == (if rows == [] then acquired else rows[|rows| - 1].end + 1) <= r.end
    ensures Tiles(rows + [r], acquired)
  {
  }

  lemma AppendKeeps(rows: seq<Row>, r: Row, acquired: Date, cost: Decimal)
    requires Tiles(rows, acquired) && Bounded(rows, cost)
    requires r.start == PeriodStart(rows, acquired) <= r.end
    requires r.amount >= 0.0 && (r.amount == 0.0 || r.amount <= cost - Total(rows))
    ensures Tiles(rows + [r], acquired) && Bounded(rows + [r], cost)
    ensures LastEnd(rows + [r]) == r.end
  {
    hide Total, LastEnd, Tiles;
    if rows != [] {
      TilesLastEnd(rows, acquired);
    }
    TilesAppend(rows, r, acquired);
    TotalAppend(rows, r);
    TilesLastEnd(rows + [r], acquired);
  }

  lemma StepKeeps(t: Terms, rows: seq<Row>, asOf: Date)
    requires Tiles(rows, t.acquired) && Bounded(rows, t.cost)
    requires PeriodStart(rows, t.acquired) <= asOf
    ensures Tiles(Step(t, rows, asOf), t.acquired)
    ensures Bounded(Step(t, rows, asOf), t.cost)
    ensures LastEnd(Step(t, rows, asOf)) == asOf
  {
    hide Computed, Clamped, Tiles, Bounded, Total, LastEnd, PeriodStart;
    AppendKeeps(rows, NextRow(t.account, t.commodity, t.policy, t.cost, t.acquired, rows, asOf), t.acquired, t.cost);
  }

  lemma NoRowsAreSound(acquired: Date, cost: Decimal)
    ensures Tiles([], acquired) && Bounded([], cost)
  {
  }

  /** An accepted run tiles the calendar from the acquisition date to its last end, within bounds. */
  lemma {:induction false} RunTiles(t: Terms, ends: seq<Date>)
    requires Accepted(t, ends)
    ensures Tiles(Run(t, ends), t.acquired)
    ensures Bounded(Run(t, ends), t.cost)
    ensures ends != [] ==> PeriodStart(Run(t, ends), t.acquired) == ends[|ends| - 1] + 1
  {
    hide Step, Tiles, Bounded, LastEnd;
    if ends == [] {
      NoRowsAreSound(t.acquired, t.cost);
    } else {
      var before := ends[..|ends| - 1];
      RunTiles(t, before);
      StepKeeps(t, Run(t, before), ends[|ends| - 1]);
    }
  }

  lemma RunPrefix(t: Terms, ends: seq<Date>)
    requires ends != []
    ensures var rows := Run(t, ends[..|ends| - 1]);
            Run(t, ends) == rows + [NextRow(t.account, t.commodity, t.policy, t.cost, t.acquired, rows, ends[|ends| - 1])]
  {
    hide NextRow;
  }

  /** The periods of a run end at the dates the calls were given. */
  lemma {:induction false} RunEnds(t: Terms, ends: seq<Date>, i: nat)
    requires i < |ends|
    ensures Run(t, ends)[i].end == ends[i]
  {
    hide Computed, Clamped, Total, LastEnd, PeriodStart;
    RunPrefix(t, ends);
    if i < |ends| - 1 {
      RunEnds(t, ends[..|ends| - 1], i);
    }
  }

  /** Every day from acquisition to the last end lies in exactly one recorded period. */
  lemma EachDayOnce(t: Terms, ends: seq<Date>, day: Date)
    requires Accepted(t, ends) && ends != []
    requires t.acquired <= day <= ends[|ends| - 1]
    ensures exists i :: 0 <= i < |ends| && Run(t, ends)[i].start <= day <= Run(t, ends)[i].end
    ensures forall i, j :: 0 <= i < j < |ends| ==> !(Run(t, ends)[i].start <= day <= Run(t, ends)[i].end
                                                     && Run(t, ends)[j].start <= day <= Run(t, ends)[j].end)
  {
    hide Run;
    var rows := Run(t, ends);
    RunTiles(t, ends);
    RunEnds(t, ends, |ends| - 1);
    forall i, j | 0 <= i < j < |ends| ensures rows[i].end < rows[j].start {
      TilesEndsAscend(rows, t.acquired, i, j);
    }
    var i := |ends| - 1;
    while day < rows[i].start
      invariant 0 <= i < |ends| && day <= rows[i].end
    {
      i := i - 1;
    }
  }

  /** The book value a run leaves lies between zero and the cost exactly when the cost is not negative. */
  lemma BookValueBounds(t: Terms, ends: seq<Date>)
    requires Accepted(t, ends)
    ensures 0.0 <= t.cost - Total(Run(t, ends)) <= t.cost <==> t.cost >= 0.0
  {
    RunTiles(t, ends);
  }

  /** However a run is split, straight-line depreciation totals the daily amount times the days, capped at the cost. */
  lemma {:induction false} StraightLineTotal(t: Terms, ends: seq<Date>)
    requires Accepted(t, ends) && ends != []
    requires t.policy.StraightLine?
    ensures Total(Run(t, ends)) ==
            Clamped(Over(Daily(t.cost, t.policy.annualRate), DaysBetween(t.acquired, ends[|ends| - 1])), t.cost)
  {
    hide Over, Daily, Clamped, Total, LastEnd, Run, Tiles, Bounded;
    var daily := Daily(t.cost, t.policy.annualRate);
    var before, asOf := ends[..|ends| - 1], ends[|ends| - 1];
    var rows := Run(t, before);
    RunTiles(t, before);
    RunPrefix(t, ends);
    var days := DaysBetween(PeriodStart(rows, t.acquired), asOf);
    TotalAppend(rows, NextRow(t.account, t.commodity, t.policy, t.cost, t.acquired, rows, asOf));
    assert Total(Run(t, ends)) == Total(rows) + Clamped(Over(daily, days), t.cost - Total(rows));
    if before == [] {
      EmptyTotal();
    } else {
      StraightLineTotal(t, before);
      var earlier := DaysBetween(t.acquired, before[|before| - 1]);
      AcceptedAscends(t, before, |before| - 1);
      assert DaysBetween(t.acquired, asOf) == earlier + days;
      ClampsCompose(daily, earlier, days, t.cost);
    }
  }

  lemma EmptyTotal()
    ensures Total([]) == 0.0
  {
  }

  lemma ClampsCompose(daily: Decimal, earlier: nat, days: nat, cost: Decimal)
    ensures var taken := Clamped(Over(daily, earlier), cost);
            taken + Clamped(Over(daily, days), cost - taken) == Clamped(Over(daily, earlier + days), cost)
  {
    var x, y := earlier as real, days as real;
    assert daily * (x + y) == daily * x + daily * y;
    assert (-daily) * x == -(daily * x) && (-daily) * y == -(daily * y);
    NotNegative(daily, x);
    NotNegative(daily, y);
    NotNegative(-daily, x);
    NotNegative(-daily, y);
  }

  /** A stretch of days at an annual rate, 365.25 days to the year. */
  function YearsAt(base: Decimal, rate: Decimal, days: real): Decimal {
    base * rate * days / 365.25
  }

  /** At least nothing and at most the cost. */
  function UpToCost(full: Decimal, cost: Decimal): Decimal {
    if cost <= 0.0 || full <= 0.0 then 0.0 else if full >= cost then cost else full
  }

  /** In figures: the cost at the annual rate over all the days, at least nothing and at most the cost. */
  lemma StraightLineInFigures(t: Terms, ends: seq<Date>)
    requires Accepted(t, ends) && ends != []
    requires t.policy.StraightLine?
    ensures Total(Run(t, ends)) ==
            UpToCost(YearsAt(t.cost, t.policy.annualRate, (ends[|ends| - 1] - t.acquired + 1) as real), t.cost)
  {
    hide *;
    StraightLineTotal(t, ends);
    LastIsLate(t, ends);
    PerYear(t.cost, t.policy.annualRate, ends[|ends| - 1] - t.acquired + 1);
    ClampedIs(YearsAt(t.cost, t.policy.annualRate, (ends[|ends| - 1] - t.acquired + 1) as real), t.cost);
  }

  lemma LastIsLate(t: Terms, ends: seq<Date>)
    requires Accepted(t, ends) && ends != []
    ensures t.acquired <= ends[|ends| - 1]
    ensures DaysBetween(t.acquired, ends[|ends| - 1]) == ends[|ends| - 1] - t.acquired + 1
  {
    AcceptedAscends(t, ends, |ends| - 1);
  }

  lemma ClampedIs(full: Decimal, cost: Decimal)
    ensures Clamped(full, cost) == UpToCost(full, cost)
  {
  }

  lemma PerYear(base: Decimal, rate: Decimal, days: nat)
    ensures Over(Daily(base, rate), days) == YearsAt(base, rate, days as real)
  {
  }

  /** Two straight-line runs to the same date depreciate the same amount. */
  lemma StraightLineIgnoresTheSplit(t: Terms, one: seq<Date>, two: seq<Date>)
    requires Accepted(t, one) && Accepted(t, two) && one != [] && two != []
    requires one[|one| - 1] == two[|two| - 1]
    requires t.policy.StraightLine?
    ensures Total(Run(t, one)) == Total(Run(t, two))
  {
    hide Over, Daily, Clamped, Total, Run;
    StraightLineTotal(t, one);
    StraightLineTotal(t, two);
  }

  // ----- Declining balance: splitting never lowers the book value -----

  /** The book value after one declining-balance call. */
  function Decline(rate: Decimal, book: Decimal, days: nat): Decimal {
    book - Clamped(Over(Daily(book, rate), days), book)
  }

  function Book(t: Terms, ends: seq<Date>): Decimal {
    t.cost - Total(Run(t, ends))
  }

  /** Where the period after those ends starts. */
  function NextStart(t: Terms, ends: seq<Date>): Date {
    if ends == [] then t.acquired else ends[|ends| - 1] + 1
  }

  lemma BookStep(t: Terms, before: seq<Date>, end: Date)
    requires Accepted(t, before + [end]) && t.policy.DecliningBalance?
    ensures Book(t, before + [end]) ==
            Decline(t.policy.annualRate, Book(t, before), DaysBetween(NextStart(t, before), end))
  {
    hide Over, Daily, Clamped, Total, LastEnd, Run, Tiles, Bounded;
    var ends := before + [end];
    assert ends[..|ends| - 1] == before;
    AcceptedPrefix(t, ends);
    var rows := Run(t, before);
    RunTiles(t, before);
    RunPrefix(t, ends);
    TotalAppend(rows, NextRow(t.account, t.commodity, t.policy, t.cost, t.acquired, rows, end));
  }

  /** What a call leaves of a book value when `lost` of it goes: nothing past a whole one, and a debt as it was. */
  function Left(book: Decimal, lost: Decimal): Decimal {
    if book <= 0.0 || lost <= 0.0 then book else if lost >= 1.0 then 0.0 else book * (1.0 - lost)
  }

  /** In figures: a call takes the annual rate's share over its days from the book value before it. */
  lemma DecliningInFigures(t: Terms, before: seq<Date>, end: Date)
    requires Accepted(t, before + [end]) && t.policy.DecliningBalance?
    ensures var start := if before == [] then t.acquired else before[|before| - 1] + 1;
            Book(t, before + [end]) == Left(Book(t, before), YearsAt(1.0, t.policy.annualRate, (end - start + 1) as real))
  {
    hide *;
    BookStep(t, before, end);
    AcceptedStep(t, before, end);
    DeclineIsLeft(t.policy.annualRate, Book(t, before), end - NextStart(t, before) + 1);
  }

  lemma DeclineIsLeft(rate: Decimal, book: Decimal, days: nat)
    ensures Decline(rate, book, days) == Left(book, YearsAt(1.0, rate, days as real))
  {
    PerYear(book, rate, days);
    assert YearsAt(book, rate, days as real) == book * YearsAt(1.0, rate, days as real) by {
      Share(book, rate, days as real);
    }
    hide YearsAt, Over, Daily;
    KeptShare(book, YearsAt(1.0, rate, days as real));
  }

  lemma AcceptedStep(t: Terms, before: seq<Date>, end: Date)
    requires Accepted(t, before + [end])
    ensures NextStart(t, before) <= end && NextStart(t, before) == (if before == [] then t.acquired else before[|before| - 1] + 1)
    ensures DaysBetween(NextStart(t, before), end) == end - NextStart(t, before) + 1
  {
    var ends := before + [end];
    if before != [] {
      assert ends[|before| - 1] < ends[|before|];
    } else {
      assert ends[0] == end;
    }
  }

  lemma Share(book: Decimal, rate: Decimal, days: real)
    ensures YearsAt(book, rate, days) == book * YearsAt(1.0, rate, days)
  {
    assert book * rate * days == book * (rate * days);
    var year := rate * days;
    assert book * year / 365.25 == book * (year / 365.25);
    assert 1.0 * rate * days == year;
  }

  lemma KeptShare(book: Decimal, lost: Decimal)
    ensures book - Clamped(book * lost, book) == Left(book, lost)
  {
    assert book * (1.0 - lost) == book - book * lost;
    assert book * (lost - 1.0) == book * lost - book;
    assert book * (-lost) == -(book * lost);
    NotNegative(book, lost);
    NotNegative(book, -lost);
    NotNegative(book, lost - 1.0);
    NotNegative(book, 1.0 - lost);
  }

  /** The share of a non-negative book value that survives one call. */
  function Surviving(rate: Decimal, days: nat): (f: Decimal)
    ensures 0.0 <= f <= 1.0
  {
    Factor(Over(Daily(1.0, rate), days))
  }

  lemma DeclineIsScaling(rate: Decimal, book: Decimal, days: nat)
    ensures Decline(rate, book, days) == if book >= 0.0 then Times(book, Surviving(rate, days)) else book
  {
    OverIsLinear(rate, book, days);
    hide Over, Daily, Times, Clamped, Factor;
    ClampScaled(book, Over(Daily(1.0, rate), days));
  }

  function Times(a: Decimal, b: Decimal): Decimal {
    a * b
  }

  /** What clamping a multiple of the book value leaves. */
  lemma ClampScaled(book: Decimal, x: Decimal)
    ensures book - Clamped(Times(book, x), book) == if book >= 0.0 then Times(book, Factor(x)) else book
  {
    ScaledBounds(book, x);
    ScaledByBounds(book);
    hide Times;
  }

  lemma ScaledByBounds(book: Decimal)
    ensures Times(book, 0.0) == 0.0 && Times(book, 1.0) == book
  {
  }

  lemma OverIsLinear(rate: Decimal, book: Decimal, days: nat)
    ensures Over(Daily(book, rate), days) == Times(book, Over(Daily(1.0, rate), days))
  {
    assert book * rate / DAYS_PER_YEAR == book * (1.0 * rate / DAYS_PER_YEAR);
  }

  lemma ScaledBounds(book: Decimal, x: Decimal)
    ensures book >= 0.0 && x >= 1.0 ==> Times(book, x) >= book
    ensures book >= 0.0 && 0.0 <= x <= 1.0 ==> 0.0 <= Times(book, x) <= book
    ensures book >= 0.0 && x <= 0.0 ==> Times(book, x) <= 0.0
    ensures Times(book, 1.0 - x) == book - Times(book, x)
  {
    assert book * (1.0 - x) == book - book * x;
    assert book * (x - 1.0) == book * x - book;
    NotNegative(book, x);
    NotNegative(book, x - 1.0);
    NotNegative(book, -x);
    assert book * (-x) == -(book * x);
    NotNegative(book, 1.0 - x);
  }

  lemma NotNegative(a: Decimal, b: Decimal)
    ensures a >= 0.0 && b >= 0.0 ==> a * b >= 0.0
  {
  }

  lemma ScalingIsMonotone(low: Decimal, high: Decimal, f: Decimal)
    requires low <= high && f >= 0.0
    ensures Times(low, f) <= Times(high, f)
  {
    NotNegative(high - low, f);
    assert (high - low) * f == high * f - low * f;
  }

  lemma DeclineIsMonotone(rate: Decimal, low: Decimal, high: Decimal, days: nat)
    requires low <= high
    ensures Decline(rate, low, days) <= Decline(rate, high, days)
  {
    hide Decline, Surviving, Times;
    DeclineIsScaling(rate, low, days);
    DeclineIsScaling(rate, high, days);
    var f := Surviving(rate, days);
    ScalingIsMonotone(low, high, f);
    ScalingIsMonotone(0.0, MaxDecimal(high, 0.0), f);
    NothingScaled(f);
  }

  lemma NothingScaled(f: Decimal)
    ensures Times(0.0, f) == 0.0 && Times(f, 0.0) == 0.0
  {
  }

  /** Surviving both stretches keeps at least what surviving one joint stretch keeps. */
  lemma SurvivalsCompose(rate: Decimal, first: nat, second: nat)
    ensures Surviving(rate, first + second) <= Times(Surviving(rate, first), Surviving(rate, second))
  {
    var k := Daily(1.0, rate);
    OversAdd(k, first, second);
    hide Over, Daily, Factor, Times;
    FactorsCompose(Over(k, first), Over(k, second));
  }

  lemma OversAdd(k: Decimal, first: nat, second: nat)
    ensures Over(k, first + second) == Over(k, first) + Over(k, second)
    ensures (Over(k, first) >= 0.0 && Over(k, second) >= 0.0) || (Over(k, first) <= 0.0 && Over(k, second) <= 0.0)
  {
    var x, y := first as real, second as real;
    assert k * (x + y) == k * x + k * y;
    assert (-k) * x == -(k * x) && (-k) * y == -(k * y);
    NotNegative(k, x);
    NotNegative(k, y);
    NotNegative(-k, x);
    NotNegative(-k, y);
  }

  function Factor(x: Decimal): (f: Decimal)
    ensures f == if x >= 1.0 then 0.0 else if x >= 0.0 then 1.0 - x else 1.0
  {
    MinDecimal(1.0, MaxDecimal(0.0, 1.0 - x))
  }

  lemma FactorsCompose(x: Decimal, y: Decimal)
    requires (x >= 0.0 && y >= 0.0) || (x <= 0.0 && y <= 0.0)
    ensures Factor(x + y) <= Times(Factor(x), Factor(y))
  {
    if 0.0 <= x < 1.0 && 0.0 <= y < 1.0 {
      Expand(x, y);
      ScalingIsMonotone(0.0, x, y);
      ScalingIsMonotone(0.0, 1.0 - x, 1.0 - y);
      NothingScaled(y);
      NothingScaled(1.0 - y);
      hide Times;
    } else if x >= 1.0 || y >= 1.0 {
      NothingScaled(Factor(x));
      NothingScaled(Factor(y));
      hide Times;
    } else {
      ScaledByBounds(1.0);
      hide Times;
    }
  }

  lemma Expand(x: Decimal, y: Decimal)
    ensures Times(1.0 - x, 1.0 - y) == 1.0 - x - y + Times(x, y)
  {
    assert (1.0 - x) * (1.0 - y) == 1.0 - x - y + x * y;
  }

  /** One call over both stretches of days never leaves more than one call over each. */
  lemma OneCallLeavesNoMore(rate: Decimal, book: Decimal, first: nat, second: nat)
    ensures Decline(rate, book, first + second) <= Decline(rate, Decline(rate, book, first), second)
  {
    hide Decline, Surviving, Times;
    DeclineIsScaling(rate, book, first + second);
    DeclineIsScaling(rate, book, first);
    DeclineIsScaling(rate, Decline(rate, book, first), second);
    SurvivalsCompose(rate, first, second);
    var f, g := Surviving(rate, first), Surviving(rate, second);
    if book >= 0.0 {
      ScalingIsMonotone(0.0, book, f);
      NothingScaled(f);
      ScalingIsMonotone(Surviving(rate, first + second), Times(f, g), book);
      Reorder(book, f, g);
      Commute(Surviving(rate, first + second), book);
    }
  }

  lemma Reorder(book: Decimal, f: Decimal, g: Decimal)
    ensures Times(Times(book, f), g) == Times(Times(f, g), book)
  {
    assert book * f * g == (f * g) * book;
  }

  lemma Commute(a: Decimal, b: Decimal)
    ensures Times(a, b) == Times(b, a)
  {
  }

  /** Dropping an end that is not the last leaves an accepted run. */
  lemma DropEnd(t: Terms, before: seq<Date>, split: Date, after: seq<Date>)
    requires after != [] && Accepted(t, before + [split] + after)
    ensures Accepted(t, before + after)
    ensures Accepted(t, before + [split])
    ensures NextStart(t, before) <= split < after[0]
  {
    var finer, coarser := before + [split] + after, before + after;
    assert finer[|before|] == split && finer[|before| + 1] == after[0];
    assert before != [] ==> finer[|before| - 1] == before[|before| - 1];
    forall i | 0 < i < |coarser| ensures coarser[i - 1] < coarser[i] {
      assert coarser[i] == if i < |before| then finer[i] else finer[i + 1];
      assert coarser[i - 1] == if i - 1 < |before| then finer[i - 1] else finer[i];
    }
    forall i | 0 < i < |before + [split]| ensures (before + [split])[i - 1] < (before + [split])[i] {
      assert (before + [split])[i] == finer[i] && (before + [split])[i - 1] == finer[i - 1];
    }
    assert coarser[0] == if before == [] then finer[1] else finer[0];
    assert (before + [split])[0] == finer[0];
  }

  /** A declining-balance run keeps at least the book value it would keep without one of its earlier ends. */
  lemma {:induction false} SplittingNeverLowers(t: Terms, before: seq<Date>, split: Date, after: seq<Date>)
    requires t.policy.DecliningBalance?
    requires after != []
    requires Accepted(t, before + [split] + after)
    ensures Accepted(t, before + after)
    ensures Book(t, before + after) <= Book(t, before + [split] + after)
    decreases |after|
  {
    DropEnd(t, before, split, after);
    hide *;
    var rate, last, shorter := t.policy.annualRate, after[|after| - 1], after[..|after| - 1];
    assert before + [split] + after == (before + [split] + shorter) + [last];
    assert before + after == (before + shorter) + [last];
    BookStep(t, before + [split] + shorter, last);
    BookStep(t, before + shorter, last);
    if shorter == [] {
      assert before + [split] + shorter == before + [split] && before + shorter == before;
      BookStep(t, before, split);
      DaysSplit(t, before, split, last);
      OneCallLeavesNoMore(rate, Book(t, before), DaysBetween(NextStart(t, before), split), DaysBetween(split + 1, last));
    } else {
      AcceptedButLast(t, before + [split] + shorter, last);
      SplittingNeverLowers(t, before, split, shorter);
      SameStart(t, before + [split], before, shorter);
      DeclineIsMonotone(rate, Book(t, before + shorter), Book(t, before + [split] + shorter), DaysBetween(NextStart(t, before + shorter), last));
    }
  }

  lemma DaysSplit(t: Terms, before: seq<Date>, split: Date, last: Date)
    requires NextStart(t, before) <= split < last
    ensures DaysBetween(NextStart(t, before), last) ==
            DaysBetween(NextStart(t, before), split) + DaysBetween(split + 1, last)
    ensures NextStart(t, before + [split]) == split + 1
  {
  }

  /** The next start depends on the last end alone. */
  lemma SameStart(t: Terms, one: seq<Date>, two: seq<Date>, tail: seq<Date>)
    requires tail != []
    ensures NextStart(t, one + tail) == NextStart(t, two + tail)
  {
  }

  lemma AcceptedButLast(t: Terms, ends: seq<Date>, last: Date)
    requires Accepted(t, ends + [last])
    ensures Accepted(t, ends)
  {
    AcceptedPrefix(t, ends + [last]);
    assert (ends + [last])[..|ends|] == ends;
  }

  lemma AcceptedPrefix(t: Terms, ends: seq<Date>)
    requires Accepted(t, ends) && ends != []
    ensures Accepted(t, ends[..|ends| - 1])
  {
  }

  /** One call to the last date never leaves a higher book value than the whole run. */
  lemma {:induction false} OneCallIsLowest(t: Terms, ends: seq<Date>)
    requires t.policy.DecliningBalance?
    requires Accepted(t, ends) && ends != []
    ensures Book(t, [ends[|ends| - 1]]) <= Book(t, ends)
    decreases |ends|
  {
    if |ends| > 1 {
      assert ends == [] + [ends[0]] + ends[1..] && [] + ends[1..] == ends[1..];
      SplittingNeverLowers(t, [], ends[0], ends[1..]);
      OneCallIsLowest(t, ends[1..]);
    } else {
      assert ends == [ends[0]];
    }
  }

  // ----- The service -----

  function Ends(rows: seq<Row>): (ends: seq<Date>)
    ensures |ends| == |rows|
    ensures forall i :: 0 <= i < |rows| ==> ends[i] == rows[i].end
  {
    seq(|rows|, i requires 0 <= i < |rows| => rows[i].end)
  }

  predicate Depreciable(a: Asset) {
    a.kind.ManualAsset? && a.cost.Some? && a.acquired.Some? && a.policy.Some? && !a.policy.value.NoDepreciation?
  }

  function TermsOf(account: AccountId, commodity: Code, a: Asset): Terms
    requires Depreciable(a)
  {
    Terms(account, commodity, a.policy.value, a.cost.value, a.acquired.value)
  }

  /** The rows are those of an accepted run of calls on the asset's terms. */
  predicate IsRun(t: Terms, rows: seq<Row>) {
    Accepted(t, Ends(rows)) && rows == Run(t, Ends(rows))
  }

  lemma StepExtendsRun(t: Terms, rows: seq<Row>, asOf: Date)
    requires IsRun(t, rows) && PeriodStart(rows, t.acquired) <= asOf
    ensures IsRun(t, Step(t, rows, asOf))
  {
    hide Computed, Clamped, Total, LastEnd, Tiles, Bounded;
    RunTiles(t, Ends(rows));
    var ends := Ends(Step(t, rows, asOf));
    assert ends[..|rows|] == Ends(rows) && ends[|rows|] == asOf;
    RunPrefix(t, ends);
  }

  lemma RowsOfAppend(rows: seq<Row>, r: Row, account: AccountId, commodity: Code)
    ensures RowsOf(rows + [r], account, commodity) ==
            RowsOf(rows, account, commodity) + (if r.account == account && r.commodity == commodity then [r] else [])
  {
    FilterAppend(rows, r, IsOf(account, commodity));
  }

  class AssetService {
    const accounts: map<AccountId, Asset>
    var depreciations: seq<Row>
    var postings: seq<Posting>

    /** The rows of every asset in every commodity are those of an accepted run of calls. */
    ghost predicate Valid()
      reads this
    {
      forall account, commodity :: SoundFor(depreciations, account, commodity)
    }

    ghost predicate SoundFor(rows: seq<Row>, account: AccountId, commodity: Code) {
      RowsOf(rows, account, commodity) != [] ==>
        && account in accounts && Depreciable(accounts[account])
        && IsRun(TermsOf(account, commodity, accounts[account]), RowsOf(rows, account, commodity))
    }

    constructor (accounts: map<AccountId, Asset>)
      ensures Valid()
      ensures this.accounts == accounts && depreciations == [] && postings == []
    {
      this.accounts := accounts;
      depreciations, postings := [], [];
    }

    /** Acquisition cost less recorded depreciation; within `[0, cost]` for a non-negative cost. */
    method BookValue(account: AccountId, commodity: Code) returns (r: Result<Option<Decimal>>)
      requires Valid()
      ensures r.Err? <==> account !in accounts
      ensures r.Err? ==> r.error == NotFound
      ensures r.Ok? ==> (r.value.None? <==> accounts[account].cost.None?)
      ensures r.Ok? && r.value.Some? ==>
                var cost := accounts[account].cost.value;
                && r.value.value == cost - Total(RowsOf(depreciations, account, commodity))
                && (0.0 <= r.value.value <= cost <==> cost >= 0.0)
    {
      if account !in accounts {
        return Err(NotFound);
      }
      var a := accounts[account];
      if a.cost.None? {
        return Ok(None);
      }
      var rows := RowsOf(depreciations, account, commodity);
      assert SoundFor(depreciations, account, commodity);
      if rows != [] {
        BookValueBounds(TermsOf(account, commodity, a), Ends(rows));
      }
      r := Ok(Some(a.cost.value - Total(rows)));
    }

    /** Depreciates one asset from where its last record ends up to and including `asOf`. */
    method RecordDepreciation(account: AccountId, commodity: Code, asOf: Date, expense: AccountId)
      returns (r: Result<Row>)
      requires Valid()
      modifies this`depreciations, this`postings
      ensures Valid()
      ensures r.Ok? <==> account in accounts && Depreciable(accounts[account])
                         && PeriodStart(RowsOf(old(depreciations), account, commodity), accounts[account].acquired.value) <= asOf
      ensures r.Ok? ==>
                && r.value == NextRow(account, commodity, accounts[account].policy.value, accounts[account].cost.value,
                                      accounts[account].acquired.value, RowsOf(old(depreciations), account, commodity), asOf)
                && depreciations == old(depreciations) + [r.value]
                && postings == old(postings) + [Posting(expense, commodity, r.value.amount, asOf),
                                                Posting(account, commodity, -r.value.amount, asOf)]
      ensures r.Err? ==> depreciations == old(depreciations) && postings == old(postings)
      ensures r.Err? ==> r.error == if account !in accounts then NotFound
                                    else if !accounts[account].kind.ManualAsset? then InvalidAccountKind else BadData
    {
      hide Computed, Clamped, Total, LastEnd, Tiles, Bounded, IsRun;
      if account !in accounts {
        return Err(NotFound);
      }
      var a := accounts[account];
      if !a.kind.ManualAsset? {
        return Err(InvalidAccountKind);
      }
      if a.cost.None? || a.acquired.None? || a.policy.None? || a.policy.value.NoDepreciation? {
        return Err(BadData);
      }
      var rows := RowsOf(depreciations, account, commodity);
      var start := PeriodStart(rows, a.acquired.value);
      if asOf < start {
        return Err(BadData);
      }
      var book := a.cost.value - Total(rows);
      var amount := Computed(a.policy.value, a.cost.value, book, DaysBetween(start, asOf));
      var row := Row(account, commodity, Clamped(amount, book), start, asOf);

      ghost var t := TermsOf(account, commodity, a);
      assert SoundFor(depreciations, account, commodity);
      if rows == [] {
        NoRowsAreARun(t);
      }
      StepExtendsRun(t, rows, asOf);
      forall other, code ensures SoundFor(depreciations + [row], other, code) {
        RowsOfAppend(depreciations, row, other, code);
        assert SoundFor(depreciations, other, code);
      }

      depreciations := depreciations + [row];
      postings := postings + [Posting(expense, commodity, row.amount, asOf), Posting(account, commodity, -row.amount, asOf)];
      r := Ok(row);
    }
  }

  lemma NoRowsAreARun(t: Terms)
    ensures IsRun(t, [])
  {
    assert Ends([]) == [];
  }
}
