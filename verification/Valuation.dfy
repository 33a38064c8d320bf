/** Valuing what a budget matched: one commodity decision, and every amount in a total or reported unvalued. */
module Valuation {
  import opened Prelude
  import opened Sums
  import opened Balances
  import opened Timeline

  /** The rate service: a converted value, or nothing when no rate reaches the commodity. */
  type Rates = (Amount, Code) -> Option<Decimal>

  /** Under a target, the converted value; tracking only, the amount itself when it is in `dominant`. */
  function ValueIn(fx: Rates, rev: Revision, dominant: Option<Code>, amount: Amount): Option<Decimal> {
    match rev.target
    case Some(target) => fx(amount, target.commodity)
    case None => if dominant == Some(amount.commodity) then Some(amount.value) else None
  }

  // ----- The dominant commodity -----

  /** The part of an amount that is in `c`. */
  function NativeIn(c: Code): Amount -> Decimal {
    (a: Amount) => if a.commodity == c then a.value else 0.0
  }

  function Codes(amounts: seq<Amount>): set<Code> {
    set i | 0 <= i < |amounts| :: amounts[i].commodity
  }

  /** Per-commodity totals, zero totals included. */
  function Groups(amounts: seq<Amount>): map<Code, Decimal> {
    map c | c in Codes(amounts) :: Sum(amounts, NativeIn(c))
  }

  /** `amount` added into its group. */
  function Grouped(groups: map<Code, Decimal>, amount: Amount): map<Code, Decimal> {
    groups[amount.commodity := (if amount.commodity in groups then groups[amount.commodity] else 0.0) + amount.value]
  }

  method CommodityGroups(amounts: seq<Amount>) returns (groups: map<Code, Decimal>)
    ensures groups == Groups(amounts)
  {
    groups := map[];
    for n := 0 to |amounts|
      invariant groups == Groups(amounts[..n])
    {
      hide Groups, Grouped;
      var amount := amounts[n];
      GroupsAppend(amounts[..n], amount);
      assert amounts[..n + 1] == amounts[..n] + [amount];
      groups := AddToGroup(groups, amount);
    }
    assert amounts[..|amounts|] == amounts;
  }

  method AddToGroup(groups: map<Code, Decimal>, amount: Amount) returns (more: map<Code, Decimal>)
    ensures more == Grouped(groups, amount)
  {
    more := groups;
    if amount.commodity !in more {
      more := more[amount.commodity := 0.0];
    }
    more := more[amount.commodity := more[amount.commodity] + amount.value];
  }

  lemma CodesAppend(amounts: seq<Amount>, amount: Amount)
    ensures Codes(amounts + [amount]) == Codes(amounts) + {amount.commodity}
  {
    var more := amounts + [amount];
    assert more[|amounts|] == amount;
    forall c | c in Codes(amounts) ensures c in Codes(more) {
      var i :| 0 <= i < |amounts| && amounts[i].commodity == c;
      assert more[i].commodity == c;
    }
  }

  lemma GroupAppend(amounts: seq<Amount>, amount: Amount, c: Code)
    ensures c in Groups(amounts + [amount]) <==> c in Grouped(Groups(amounts), amount)
    ensures c in Groups(amounts + [amount]) ==> Groups(amounts + [amount])[c] == Grouped(Groups(amounts), amount)[c]
  {
    CodesAppend(amounts, amount);
    SumAppend(amounts, amount, NativeIn(c));
    if c !in Codes(amounts) {
      Absent(amounts, c);
    }
  }

  lemma GroupsAppend(amounts: seq<Amount>, amount: Amount)
    ensures Groups(amounts + [amount]) == Grouped(Groups(amounts), amount)
  {
    forall c {
      GroupAppend(amounts, amount, c);
    }
    hide *;
    assert Groups(amounts + [amount]).Keys == Grouped(Groups(amounts), amount).Keys;
  }

  lemma Absent(amounts: seq<Amount>, c: Code)
    requires c !in Groups(amounts)
    ensures Sum(amounts, NativeIn(c)) == 0.0
  {
    SumOfZeros(amounts, NativeIn(c));
  }

  function Abs(x: Decimal): Decimal {
    if x < 0.0 then -x else x
  }

  /** Among `keys`, `c` has the largest absolute total, and the highest code among equals. */
  ghost predicate Leads(groups: map<Code, Decimal>, keys: set<Code>, c: Code)
    requires keys <= groups.Keys
  {
    && c in keys
    && forall d :: d in keys ==> Abs(groups[d]) < Abs(groups[c]) || (Abs(groups[d]) == Abs(groups[c]) && d <= c)
  }

  lemma {:induction false} SomeLeader(groups: map<Code, Decimal>, keys: set<Code>) returns (c: Code)
    requires keys <= groups.Keys && keys != {}
    ensures Leads(groups, keys, c)
    decreases |keys|
  {
    c :| c in keys;
    if keys - {c} != {} {
      var d := SomeLeader(groups, keys - {c});
      if Abs(groups[c]) < Abs(groups[d]) || (Abs(groups[c]) == Abs(groups[d]) && c <= d) {
        c := d;
      }
    } else {
      assert keys == {c};
    }
  }

  lemma OneLeader(groups: map<Code, Decimal>, keys: set<Code>, c: Code, d: Code)
    requires keys <= groups.Keys && Leads(groups, keys, c) && Leads(groups, keys, d)
    ensures c == d
  {
  }

  ghost function Dominant(groups: map<Code, Decimal>): (d: Option<Code>)
    ensures d.None? <==> groups == map[]
    ensures d.Some? ==> Leads(groups, groups.Keys, d.value)
  {
    if groups == map[] then None
    else
      ghost var c := SomeLeaderOf(groups);
      Some(c)
  }

  ghost function SomeLeaderOf(groups: map<Code, Decimal>): (c: Code)
    requires groups != map[]
    ensures Leads(groups, groups.Keys, c)
  {
    assert exists c :: Leads(groups, groups.Keys, c) by {
      var c := SomeLeader(groups, groups.Keys);
    }
    var c :| Leads(groups, groups.Keys, c);
    c
  }

  /** Every code in `passed` precedes every code in `rest`, and `best` leads those passed. */
  ghost predicate Scanned(groups: map<Code, Decimal>, passed: set<Code>, rest: set<Code>, best: Option<Code>) {
    && groups.Keys == passed + rest
    && (forall c, d :: c in passed && d in rest ==> c < d)
    && (best.None? <==> passed == {})
    && (best.Some? ==> Leads(groups, passed, best.value))
  }

  lemma ScanStep(groups: map<Code, Decimal>, passed: set<Code>, rest: set<Code>, best: Option<Code>, code: Code)
    requires Scanned(groups, passed, rest, best) && code in rest && IsLeast(rest, code)
    ensures Scanned(groups, passed + {code}, rest - {code},
                    if best.None? || Abs(groups[best.value]) <= Abs(groups[code]) then Some(code) else best)
  {
    hide Abs;
    assert groups.Keys == (passed + {code}) + (rest - {code});
    AbsOrder();
  }

  lemma AbsOrder()
    ensures forall x, y :: Abs(x) <= Abs(y) || Abs(y) < Abs(x)
  {
  }

  /** Scans in code order, keeping the later of two equal totals. */
  method DominantCommodity(groups: map<Code, Decimal>) returns (dominant: Option<Code>)
    ensures dominant == Dominant(groups)
  {
    hide Scanned;
    dominant := None;
    var rest := groups.Keys;
    ghost var passed: set<Code> := {};
    assert Scanned(groups, passed, rest, dominant) by { ScanStart(groups); }
    while rest != {}
      invariant rest <= groups.Keys && (dominant.Some? ==> dominant.value in groups)
      invariant Scanned(groups, passed, rest, dominant)
      decreases |rest|
    {
      Least(rest);
      var code :| code in rest && IsLeast(rest, code);
      ScanStep(groups, passed, rest, dominant, code);
      if dominant.None? || Abs(groups[dominant.value]) <= Abs(groups[code]) {
        dominant := Some(code);
      }
      rest, passed := rest - {code}, passed + {code};
    }
    ScanEnd(groups, passed, dominant);
  }

  lemma ScanStart(groups: map<Code, Decimal>)
    ensures Scanned(groups, {}, groups.Keys, None)
  {
  }

  lemma ScanEnd(groups: map<Code, Decimal>, passed: set<Code>, best: Option<Code>)
    requires Scanned(groups, passed, {}, best)
    ensures best == Dominant(groups)
  {
    assert passed == groups.Keys;
    if best.Some? {
      OneLeader(groups, groups.Keys, best.value, Dominant(groups).value);
    }
  }

  predicate IsLeast(keys: set<Code>, c: Code) {
    c in keys && forall d :: d in keys ==> c <= d
  }

  lemma {:induction false} Least(keys: set<Code>)
    requires keys != {}
    ensures exists c :: IsLeast(keys, c)
    decreases |keys|
  {
    var c :| c in keys;
    var others := keys - {c};
    assert forall d :: d in keys ==> d == c || d in others;
    if others != {} {
      Least(others);
      var least :| IsLeast(others, least);
      var lower := if c <= least then c else least;
      assert IsLeast(keys, lower);
    } else {
      assert IsLeast(keys, c);
    }
  }

  // ----- Totals and leftovers -----

  function ValueOrZero(fx: Rates, rev: Revision, dominant: Option<Code>): Amount -> Decimal {
    (a: Amount) => if ValueIn(fx, rev, dominant, a).Some? then ValueIn(fx, rev, dominant, a).value else 0.0
  }

  /** The sum of every amount that can be valued. */
  function Total(fx: Rates, rev: Revision, dominant: Option<Code>, amounts: seq<Amount>): Decimal {
    Sum(amounts, ValueOrZero(fx, rev, dominant))
  }

  /** The native amounts that cannot. */
  function Unvalued(fx: Rates, rev: Revision, dominant: Option<Code>, amounts: seq<Amount>): Balances {
    if amounts == [] then map[]
    else
      var rest, last := Unvalued(fx, rev, dominant, amounts[..|amounts| - 1]), amounts[|amounts| - 1];
      if ValueIn(fx, rev, dominant, last).None? then AddAmount(rest, last) else rest
  }

  function NativeValued(fx: Rates, rev: Revision, dominant: Option<Code>, c: Code): Amount -> Decimal {
    (a: Amount) => if ValueIn(fx, rev, dominant, a).Some? then NativeIn(c)(a) else 0.0
  }

  /** Per commodity, every native amount is either valued or reported unvalued. */
  lemma {:induction false} NativeIsValuedPlusUnvalued(fx: Rates, rev: Revision, dominant: Option<Code>,
                                                      amounts: seq<Amount>, c: Code)
    ensures Sum(amounts, NativeIn(c)) ==
            Sum(amounts, NativeValued(fx, rev, dominant, c)) + Get(Unvalued(fx, rev, dominant, amounts), c)
  {
    if amounts == [] {
    } else {
      NativeIsValuedPlusUnvalued(fx, rev, dominant, amounts[..|amounts| - 1], c);
    }
  }

  /** Tracking only, what is left over is every group but the dominant one, whole. */
  lemma {:induction false} TrackingLeftovers(fx: Rates, rev: Revision, dominant: Option<Code>, amounts: seq<Amount>,
                                             c: Code)
    requires rev.target.None?
    ensures Get(Unvalued(fx, rev, dominant, amounts), c) == if dominant == Some(c) then 0.0 else Sum(amounts, NativeIn(c))
  {
    if amounts == [] {
    } else {
      TrackingLeftovers(fx, rev, dominant, amounts[..|amounts| - 1], c);
    }
  }

  /** What `fx` makes of an amount in `c`, nothing when no rate reaches it. */
  function Converted(fx: Rates, c: Code): Amount -> Decimal {
    (a: Amount) => match fx(a, c) case Some(value) => value case None => 0.0
  }

  /** Tracking only, the total is the native sum in the one commodity; without a commodity there is none. */
  lemma {:induction false} TrackingTotal(fx: Rates, rev: Revision, dominant: Option<Code>, amounts: seq<Amount>)
    requires rev.target.None?
    ensures Total(fx, rev, dominant, amounts) == if dominant.None? then 0.0 else Sum(amounts, NativeIn(dominant.value))
  {
    if amounts == [] {
    } else {
      TrackingTotal(fx, rev, dominant, amounts[..|amounts| - 1]);
    }
  }

  /** Under a target, the total is what its commodity's rates make of the amounts. */
  lemma {:induction false} TargetTotal(fx: Rates, rev: Revision, dominant: Option<Code>, amounts: seq<Amount>)
    requires rev.target.Some?
    ensures Total(fx, rev, dominant, amounts) == Sum(amounts, Converted(fx, rev.target.value.commodity))
  {
    if amounts == [] {
    } else {
      TargetTotal(fx, rev, dominant, amounts[..|amounts| - 1]);
    }
  }

  /** Amounts all in the target's commodity total to their native sum, where a commodity is worth itself. */
  lemma {:induction false} TargetTotalOfOwnCommodity(fx: Rates, rev: Revision, dominant: Option<Code>,
                                                     amounts: seq<Amount>)
    requires rev.target.Some?
    requires forall i :: 0 <= i < |amounts| ==> amounts[i].commodity == rev.target.value.commodity
    requires forall a: Amount :: fx(a, a.commodity) == Some(a.value)
    ensures Total(fx, rev, dominant, amounts) == Sum(amounts, NativeIn(rev.target.value.commodity))
  {
    TargetTotal(fx, rev, dominant, amounts);
    SumPointwise(amounts, Converted(fx, rev.target.value.commodity), NativeIn(rev.target.value.commodity));
  }

  /** Under a target, what is left over in `c` is the native amount in `c` that no rate reaches. */
  function Unreached(fx: Rates, target: Code, c: Code): Amount -> Decimal {
    (a: Amount) => if fx(a, target).None? && a.commodity == c then a.value else 0.0
  }

  lemma {:induction false} TargetLeftovers(fx: Rates, rev: Revision, dominant: Option<Code>, amounts: seq<Amount>,
                                           c: Code)
    requires rev.target.Some?
    ensures Get(Unvalued(fx, rev, dominant, amounts), c) == Sum(amounts, Unreached(fx, rev.target.value.commodity, c))
  {
    if amounts == [] {
    } else {
      TargetLeftovers(fx, rev, dominant, amounts[..|amounts| - 1], c);
    }
  }

  datatype PeriodActuals = PeriodActuals(total: Decimal, commodity: Option<Code>, unvalued: Balances)

  /** What a period's fold should be: one commodity, the total in it, and everything else. */
  ghost function ActualsOf(fx: Rates, rev: Revision, amounts: seq<Amount>): PeriodActuals {
    var dominant := Dominant(Groups(amounts));
    PeriodActuals(Total(fx, rev, dominant, amounts),
                  if rev.target.Some? then Some(rev.target.value.commodity) else dominant,
                  Unvalued(fx, rev, dominant, amounts))
  }

  /** Folds one bucket; tracking only, the leftovers are reported group by group. */
  method FoldActuals(fx: Rates, rev: Revision, amounts: seq<Amount>) returns (actuals: PeriodActuals)
    ensures actuals == ActualsOf(fx, rev, amounts)
  {
    var groups: map<Code, Decimal> := map[];
    var dominant: Option<Code> := None;
    if rev.target.None? {
      groups := CommodityGroups(amounts);
      dominant := DominantCommodity(groups);
    }
    var commodity := if rev.target.Some? then Some(rev.target.value.commodity) else dominant;
    var total: Decimal := 0.0;
    var unvalued: Balances := map[];
    for n := 0 to |amounts|
      invariant total == Total(fx, rev, dominant, amounts[..n])
      invariant unvalued == if rev.target.Some? then Unvalued(fx, rev, dominant, amounts[..n]) else map[]
    {
      assert amounts[..n + 1][..n] == amounts[..n];
      match ValueIn(fx, rev, dominant, amounts[n])
      case Some(value) => total := total + value;
      case None =>
        if rev.target.Some? {
          unvalued := AddAmount(unvalued, amounts[n]);
        }
    }
    assert amounts[..|amounts|] == amounts;
    if rev.target.Some? {
      TargetIgnoresDominant(fx, rev, dominant, Dominant(Groups(amounts)), amounts);
    } else {
      unvalued := OtherGroups(groups, dominant);
      forall c ensures Get(unvalued, c) == Get(Unvalued(fx, rev, dominant, amounts), c) {
        TrackingLeftovers(fx, rev, dominant, amounts, c);
        if c !in groups {
          Absent(amounts, c);
        }
      }
      SameTotalsAreEqual(unvalued, Unvalued(fx, rev, dominant, amounts));
    }
    actuals := PeriodActuals(total, commodity, unvalued);
  }

  /** Every group but the dominant one, added into a balance. */
  method OtherGroups(groups: map<Code, Decimal>, dominant: Option<Code>) returns (unvalued: Balances)
    ensures forall c :: Get(unvalued, c) == if c in groups && dominant != Some(c) then groups[c] else 0.0
  {
    unvalued := map[];
    var rest := groups.Keys;
    while rest != {}
      invariant rest <= groups.Keys
      invariant forall c :: Get(unvalued, c) == if c in groups && c !in rest && dominant != Some(c) then groups[c] else 0.0
      decreases |rest|
    {
      var code :| code in rest;
      if dominant != Some(code) {
        unvalued := AddAmount(unvalued, Amount(groups[code], code));
      }
      rest := rest - {code};
    }
  }

  lemma {:induction false} TargetIgnoresDominant(fx: Rates, rev: Revision, one: Option<Code>, two: Option<Code>,
                                                 amounts: seq<Amount>)
    requires rev.target.Some?
    ensures Total(fx, rev, one, amounts) == Total(fx, rev, two, amounts)
    ensures Unvalued(fx, rev, one, amounts) == Unvalued(fx, rev, two, amounts)
  {
    if amounts == [] {
    } else {
      TargetIgnoresDominant(fx, rev, one, two, amounts[..|amounts| - 1]);
    }
  }
}
