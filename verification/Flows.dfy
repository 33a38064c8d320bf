/** What moves into, out of and within a set of accounts, as an accumulator per transaction, and sums over a window. */
module Flows {
  import opened Prelude
  import opened Sums
  import opened Seqs
  import opened Ledger

  function PositivePart(): real -> real {
    (x: real) => if x >= 0.0 then x else 0.0
  }

  function NegativePart(): real -> real {
    (x: real) => if x >= 0.0 then 0.0 else -x
  }

  /** Money in: the sum of the positive legs. */
  function MoneyIn(legs: seq<Decimal>): (r: Decimal) {
    Sum(legs, PositivePart())
  }

  /** Money out: the magnitude of the negative legs. */
  function MoneyOut(legs: seq<Decimal>): Decimal {
    Sum(legs, NegativePart())
  }

  function Floor0(x: Decimal): Decimal {
    if x >= 0.0 then x else 0.0
  }

  lemma {:induction false} InOut(legs: seq<Decimal>)
    ensures MoneyIn(legs) >= 0.0 && MoneyOut(legs) >= 0.0
    ensures MoneyIn(legs) - MoneyOut(legs) == Sum(legs, Itself())
  {
    if legs == [] {
    } else {
      InOut(legs[..|legs| - 1]);
    }
  }

  /** Running flow totals of one scope in one commodity. */
  class FlowTotals {
    var inflow: Decimal
    var outflow: Decimal
    var internal: Decimal

    constructor ()
      ensures inflow == outflow == internal == 0.0
    {
      inflow, outflow, internal := 0.0, 0.0, 0.0;
    }

    /** Folds one transaction: its net into inflow or outflow, what moved between its legs into internal. */
    method AddTransaction(legs: seq<Decimal>)
      modifies this
      ensures inflow == old(inflow) + Floor0(MoneyIn(legs) - MoneyOut(legs))
      ensures outflow == old(outflow) + Floor0(MoneyOut(legs) - MoneyIn(legs))
      ensures internal == old(internal) + MinDecimal(MoneyIn(legs), MoneyOut(legs))
    {
      var positive, negative := 0.0, 0.0;
      for i := 0 to |legs|
        modifies {}
        invariant positive == MoneyIn(legs[..i]) && negative == MoneyOut(legs[..i])
      {
        assert legs[..i + 1] == legs[..i] + [legs[i]];
        SumAppend(legs[..i], legs[i], PositivePart());
        SumAppend(legs[..i], legs[i], NegativePart());
        if legs[i] >= 0.0 {
          positive := positive + legs[i];
        } else {
          negative := negative - legs[i];
        }
      }
      assert legs[..|legs|] == legs;
      var net := positive - negative;
      if net >= 0.0 {
        inflow := inflow + net;
      } else {
        outflow := outflow - net;
      }
      internal := internal + MinDecimal(positive, negative);
    }
  }

  // ----- Flows of a stream -----

  function InOf(t: Transaction, c: Code): Decimal {
    MoneyIn(ValuesIn(t.legs, c))
  }

  function OutOf(t: Transaction, c: Code): Decimal {
    MoneyOut(ValuesIn(t.legs, c))
  }

  function NetIn(c: Code): Transaction -> real {
    (t: Transaction) => Floor0(InOf(t, c) - OutOf(t, c))
  }

  function NetOut(c: Code): Transaction -> real {
    (t: Transaction) => Floor0(OutOf(t, c) - InOf(t, c))
  }

  function Between(c: Code): Transaction -> real {
    (t: Transaction) => MinDecimal(InOf(t, c), OutOf(t, c))
  }

  function GrossIn(c: Code): Transaction -> real {
    (t: Transaction) => InOf(t, c)
  }

  function GrossOut(c: Code): Transaction -> real {
    (t: Transaction) => OutOf(t, c)
  }

  /**
   * Over any transactions: every flow is non-negative; net plus internal movement is the gross
   * movement on each side; and net in less net out is what the legs sum to.
   */
  lemma {:induction false} FlowIdentities(stream: seq<Transaction>, c: Code)
    ensures Sum(stream, NetIn(c)) >= 0.0 && Sum(stream, NetOut(c)) >= 0.0 && Sum(stream, Between(c)) >= 0.0
    ensures Sum(stream, NetIn(c)) + Sum(stream, Between(c)) == Sum(stream, GrossIn(c))
    ensures Sum(stream, NetOut(c)) + Sum(stream, Between(c)) == Sum(stream, GrossOut(c))
    ensures Sum(stream, NetIn(c)) - Sum(stream, NetOut(c)) == BalanceIn(stream, c)
  {
    if stream == [] {
    } else {
      var init, last := stream[..|stream| - 1], stream[|stream| - 1];
      FlowIdentities(init, c);
      InOut(ValuesIn(last.legs, c));
      ValuesSum(last.legs, c);
      SumConcat(Legs(init), last.legs, ValueIn(c));
    }
  }

  // ----- Period statistics -----

  const U32_MAX: int := 0xFFFF_FFFF

  datatype PeriodStats = PeriodStats(inflow: Decimal, outflow: Decimal, internal: Decimal, net: Decimal,
                                     opening: Decimal, closing: Decimal, txCount: nat)

  /** The statistics of a stream over `[from, until)`. */
  function StatsOf(stream: seq<Transaction>, c: Code, from: Date, until: Date): PeriodStats {
    var window := Filter(stream, DatedIn(from, until));
    var earlier := Filter(stream, DatedBefore(Min(from, until)));
    var net := Sum(window, NetIn(c)) - Sum(window, NetOut(c));
    var opening := Sum(earlier, NetIn(c)) - Sum(earlier, NetOut(c));
    PeriodStats(Sum(window, NetIn(c)), Sum(window, NetOut(c)), Sum(window, Between(c)), net,
                opening, opening + net, Min(|window|, U32_MAX))
  }

  /** One pass over the scope's transactions before `until`, splitting them at `from`. */
  method AccountPeriodStats(ledger: seq<Transaction>, ids: set<AccountId>, c: Code, from: Date, until: Date)
    returns (stats: PeriodStats)
    ensures stats == StatsOf(InScope(ledger, ids), c, from, until)
  {
    var stream := InScope(ledger, ids);
    var openingFlows, flows, txCount := FoldAround(stream, c, from, until);
    var opening := openingFlows.inflow - openingFlows.outflow;
    var net := flows.inflow - flows.outflow;
    stats := PeriodStats(flows.inflow, flows.outflow, flows.internal, net, opening, opening + net, txCount);
  }

  method FoldAround(stream: seq<Transaction>, c: Code, from: Date, until: Date)
    returns (openingFlows: FlowTotals, flows: FlowTotals, txCount: nat)
    ensures FlowsAre(openingFlows, Filter(stream, DatedBefore(Min(from, until))), c)
    ensures FlowsAre(flows, Filter(stream, DatedIn(from, until)), c)
    ensures txCount == Min(|Filter(stream, DatedIn(from, until))|, U32_MAX)
  {
    openingFlows := new FlowTotals();
    flows := new FlowTotals();
    txCount := 0;
    NoFlows(openingFlows, c);
    NoFlows(flows, c);
    hide FlowsAre, Filter;
    NothingFiltered(stream, c, from, until);
    for i := 0 to |stream|
      invariant fresh(openingFlows) && fresh(flows) && openingFlows != flows
      invariant FlowsAre(openingFlows, Filter(stream[..i], DatedBefore(Min(from, until))), c)
      invariant FlowsAre(flows, Filter(stream[..i], DatedIn(from, until)), c)
      invariant txCount == Min(|Filter(stream[..i], DatedIn(from, until))|, U32_MAX)
    {
      FilterNext(stream, i, DatedBefore(Min(from, until)));
      FilterNext(stream, i, DatedIn(from, until));
      txCount := FoldOneSide(openingFlows, flows, txCount, stream[i], c, from, until,
                             Filter(stream[..i], DatedBefore(Min(from, until))), Filter(stream[..i], DatedIn(from, until)));
    }
    assert stream[..|stream|] == stream;
  }

  /** Folds a transaction before `until` into the opening flows or the window's, by the side of `from` it is on. */
  method FoldOneSide(openingFlows: FlowTotals, flows: FlowTotals, txCount: nat, t: Transaction, c: Code, from: Date,
                     until: Date,
                     ghost earlier: seq<Transaction>, ghost within: seq<Transaction>)
    returns (count: nat)
    requires openingFlows != flows
    requires FlowsAre(openingFlows, earlier, c) && FlowsAre(flows, within, c) && txCount == Min(|within|, U32_MAX)
    modifies openingFlows, flows
    ensures FlowsAre(openingFlows, if DatedBefore(Min(from, until))(t) then earlier + [t] else earlier, c)
    ensures FlowsAre(flows, if DatedIn(from, until)(t) then within + [t] else within, c)
    ensures count == Min(|if DatedIn(from, until)(t) then within + [t] else within|, U32_MAX)
  {
    hide FlowsAre;
    count := txCount;
    if t.date < until {
      if t.date < from {
        FoldTransaction(openingFlows, t, c, earlier);
      } else {
        FoldTransaction(flows, t, c, within);
        count := if txCount == U32_MAX then U32_MAX else txCount + 1;
      }
    }
  }

  lemma NothingFiltered(stream: seq<Transaction>, c: Code, from: Date, until: Date)
    ensures Filter(stream[..0], DatedBefore(Min(from, until))) == [] && Filter(stream[..0], DatedIn(from, until)) == []
  {
  }

  lemma FilterNext(stream: seq<Transaction>, i: nat, p: Transaction -> bool)
    requires i < |stream|
    ensures Filter(stream[..i + 1], p) == if p(stream[i]) then Filter(stream[..i], p) + [stream[i]] else Filter(stream[..i], p)
  {
    assert stream[..i + 1] == stream[..i] + [stream[i]];
    FilterAppend(stream[..i], stream[i], p);
  }

  lemma NoFlows(f: FlowTotals, c: Code)
    requires f.inflow == f.outflow == f.internal == 0.0
    ensures FlowsAre(f, [], c)
  {
  }

  /** Folds one more transaction's legs in commodity `c` into `f`. */
  method FoldTransaction(f: FlowTotals, t: Transaction, c: Code, ghost seen: seq<Transaction>)
    requires FlowsAre(f, seen, c)
    modifies f
    ensures FlowsAre(f, seen + [t], c)
  {
    hide Sum, Floor0, MinDecimal, ValuesIn;
    FlowsStep(seen, t, c);
    f.AddTransaction(ValuesIn(t.legs, c));
  }

  ghost predicate FlowsAre(f: FlowTotals, stream: seq<Transaction>, c: Code)
    reads f
  {
    f.inflow == Sum(stream, NetIn(c)) && f.outflow == Sum(stream, NetOut(c)) && f.internal == Sum(stream, Between(c))
  }

  lemma FlowsStep(stream: seq<Transaction>, t: Transaction, c: Code)
    ensures Sum(stream + [t], NetIn(c)) ==
            Sum(stream, NetIn(c)) + Floor0(MoneyIn(ValuesIn(t.legs, c)) - MoneyOut(ValuesIn(t.legs, c)))
    ensures Sum(stream + [t], NetOut(c)) ==
            Sum(stream, NetOut(c)) + Floor0(MoneyOut(ValuesIn(t.legs, c)) - MoneyIn(ValuesIn(t.legs, c)))
    ensures Sum(stream + [t], Between(c)) ==
            Sum(stream, Between(c)) + MinDecimal(MoneyIn(ValuesIn(t.legs, c)), MoneyOut(ValuesIn(t.legs, c)))
  {
    SumAppend(stream, t, NetIn(c));
    SumAppend(stream, t, NetOut(c));
    SumAppend(stream, t, Between(c));
  }

  /** Total positive and negative postings over `[from, to)`, leg by leg. */
  method PostingFlows(ledger: seq<Transaction>, ids: set<AccountId>, c: Code, from: Date, to: Date)
    returns (inflow: Decimal, outflow: Decimal)
    ensures var window := Filter(InScope(ledger, ids), DatedIn(from, to));
            inflow == Sum(window, GrossIn(c)) && outflow == Sum(window, GrossOut(c))
  {
    var stream := Filter(InScope(ledger, ids), DatedIn(from, to));
    inflow, outflow := 0.0, 0.0;
    for i := 0 to |stream|
      invariant inflow == Sum(stream[..i], GrossIn(c)) && outflow == Sum(stream[..i], GrossOut(c))
    {
      var values := ValuesIn(stream[i].legs, c);
      ghost var in0, out0 := inflow, outflow;
      for k := 0 to |values|
        invariant inflow == in0 + MoneyIn(values[..k]) && outflow == out0 + MoneyOut(values[..k])
      {
        assert values[..k + 1] == values[..k] + [values[k]];
        SumAppend(values[..k], values[k], PositivePart());
        SumAppend(values[..k], values[k], NegativePart());
        if values[k] >= 0.0 {
          inflow := inflow + values[k];
        } else {
          outflow := outflow - values[k];
        }
      }
      assert values[..|values|] == values && stream[..i + 1] == stream[..i] + [stream[i]];
      SumAppend(stream[..i], stream[i], GrossIn(c));
      SumAppend(stream[..i], stream[i], GrossOut(c));
    }
    assert stream[..|stream|] == stream;
  }

  /** Gross postings over a window are its net flows plus what moved inside the scope. */
  lemma PostingFlowsAreNetPlusInternal(stream: seq<Transaction>, c: Code, from: Date, until: Date)
    ensures var stats, window := StatsOf(stream, c, from, until), Filter(stream, DatedIn(from, until));
            && Sum(window, GrossIn(c)) == stats.inflow + stats.internal
            && Sum(window, GrossOut(c)) == stats.outflow + stats.internal
            && stats.inflow >= 0.0 && stats.outflow >= 0.0 && stats.internal >= 0.0
  {
    FlowIdentities(Filter(stream, DatedIn(from, until)), c);
  }

  /** Opening, net and closing are the balances of the stream before, in and up to the end of the window. */
  lemma StatsAreBalances(stream: seq<Transaction>, c: Code, from: Date, until: Date)
    requires from <= until
    ensures var stats := StatsOf(stream, c, from, until);
            && stats.opening == BalanceIn(Filter(stream, DatedBefore(from)), c)
            && stats.net == BalanceIn(Filter(stream, DatedIn(from, until)), c)
            && stats.closing == BalanceIn(Filter(stream, DatedBefore(until)), c)
  {
    FlowIdentities(Filter(stream, DatedBefore(from)), c);
    FlowIdentities(Filter(stream, DatedIn(from, until)), c);
    FlowIdentities(Filter(stream, DatedBefore(until)), c);
    hide NetIn, NetOut, Between;
    FilterSplits(stream, DatedBefore(until), DatedBefore(from), DatedIn(from, until), NetIn(c));
    FilterSplits(stream, DatedBefore(until), DatedBefore(from), DatedIn(from, until), NetOut(c));
  }

  /** The places in the stream of the transactions a window holds. */
  function DatedAt(stream: seq<Transaction>, from: Date, until: Date): set<nat> {
    set i: nat | i < |stream| && from <= stream[i].date < until
  }

  lemma {:induction false} WindowCount(stream: seq<Transaction>, from: Date, until: Date)
    ensures |Filter(stream, DatedIn(from, until))| == |DatedAt(stream, from, until)|
  {
    if stream == [] {
      assert DatedAt(stream, from, until) == {};
    } else {
      var last := |stream| - 1;
      WindowCount(stream[..last], from, until);
      var fewer, more := DatedAt(stream[..last], from, until), DatedAt(stream, from, until);
      assert more == if from <= stream[last].date < until then fewer + {last} else fewer;
    }
  }

  /** The count is the number of transactions dated in the window, up to the largest 32-bit one. */
  lemma StatsCount(stream: seq<Transaction>, c: Code, from: Date, until: Date)
    ensures StatsOf(stream, c, from, until).txCount ==
            var dated := |DatedAt(stream, from, until)|; if dated <= 4294967295 then dated else 4294967295
  {
    WindowCount(stream, from, until);
    hide DatedAt, Filter, Sum;
  }

  /** Splitting a window at any date inside it splits every flow, and the halves meet. */
  lemma StatsSplit(stream: seq<Transaction>, c: Code, from: Date, mid: Date, until: Date)
    requires from <= mid <= until
    ensures var whole, left, right := StatsOf(stream, c, from, until), StatsOf(stream, c, from, mid), StatsOf(stream, c, mid, until);
            && whole.inflow == left.inflow + right.inflow
            && whole.outflow == left.outflow + right.outflow
            && whole.internal == left.internal + right.internal
            && whole.net == left.net + right.net
            && whole.txCount == Min(left.txCount + right.txCount, U32_MAX)
            && left.opening == whole.opening
            && right.opening == left.closing
            && right.closing == whole.closing
  {
    hide NetIn, NetOut, Between;
    FilterSplits(stream, DatedIn(from, until), DatedIn(from, mid), DatedIn(mid, until), NetIn(c));
    FilterSplits(stream, DatedIn(from, until), DatedIn(from, mid), DatedIn(mid, until), NetOut(c));
    FilterSplits(stream, DatedIn(from, until), DatedIn(from, mid), DatedIn(mid, until), Between(c));
    FilterSplits(stream, DatedBefore(mid), DatedBefore(from), DatedIn(from, mid), NetIn(c));
    FilterSplits(stream, DatedBefore(mid), DatedBefore(from), DatedIn(from, mid), NetOut(c));
    hide Filter, Sum, DatedIn, DatedBefore;
  }

  /** A window spanning every transaction opens at zero and closes at the scope's balance. */
  lemma FullSpanClosesAtBalance(stream: seq<Transaction>, c: Code, from: Date, until: Date)
    requires forall i :: 0 <= i < |stream| ==> from <= stream[i].date < until
    requires from <= until
    ensures StatsOf(stream, c, from, until).opening == 0.0
    ensures StatsOf(stream, c, from, until).closing == BalanceIn(stream, c)
  {
    FilterNothing(stream, DatedBefore(from));
    FilterEverything(stream, DatedIn(from, until));
    FlowIdentities(stream, c);
  }
}
